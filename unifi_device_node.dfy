/** The UniFi device node: the icon chosen for a device, first by its
    device type and otherwise from its name. */
module UnifiDeviceNode {
  import opened Seqs
  import opened Strings
  import opened JsValue

  datatype Icon =
    | RouterIcon | NetworkIcon | WifiIcon | SmartphoneIcon | ServerIcon | CpuIcon
    | LaptopIcon | MonitorIcon | TabletIcon | PrinterIcon | CameraIcon | CastIcon

  /** The `iconMap` table. */
  function IconMap(deviceType: string): (r: Option<Icon>)
    ensures r.Some? <==> deviceType in {"gateway", "switch", "ap", "client", "server", "opendash",
                                        "laptop", "desktop", "tablet", "printer", "camera", "iot"}
  {
    if deviceType == "gateway" then Some(RouterIcon)
    else if deviceType == "switch" then Some(NetworkIcon)
    else if deviceType == "ap" then Some(WifiIcon)
    else if deviceType == "client" then Some(SmartphoneIcon)
    else if deviceType == "server" then Some(ServerIcon)
    else if deviceType == "opendash" then Some(CpuIcon)
    else if deviceType == "laptop" then Some(LaptopIcon)
    else if deviceType == "desktop" then Some(MonitorIcon)
    else if deviceType == "tablet" then Some(TabletIcon)
    else if deviceType == "printer" then Some(PrinterIcon)
    else if deviceType == "camera" then Some(CameraIcon)
    else if deviceType == "iot" then Some(CastIcon)
    else None
  }

  /** `(data.name || '').toLowerCase()`. */
  function LowerName(name: Value): (r: string)
    ensures !Truthy(name) ==> r == ""
    ensures name.Str? ==> r == ToLower(name.s)
  {
    var v := Or(name, Str(""));
    if v.Str? then ToLower(v.s) else ""
  }

  predicate LaptopName(n: string) { Contains(n, "macbook") || Contains(n, "laptop") }
  predicate PhoneName(n: string) { Contains(n, "iphone") || Contains(n, "phone") || Contains(n, "mobile") }
  predicate TabletName(n: string) { Contains(n, "ipad") || Contains(n, "tablet") }

  /** The name heuristic, tried in order; a phone is the default. Each icon
      is chosen exactly when its words occur and no earlier test applies. */
  function IconFromName(n: string): (r: Icon)
    ensures r in {LaptopIcon, SmartphoneIcon, TabletIcon, CameraIcon, MonitorIcon}
    ensures r == LaptopIcon <==> LaptopName(n)
    ensures r == TabletIcon <==> !LaptopName(n) && !PhoneName(n) && TabletName(n)
    ensures r == CameraIcon <==> !LaptopName(n) && !PhoneName(n) && !TabletName(n) && Contains(n, "camera")
    ensures r == MonitorIcon <==>
      !LaptopName(n) && !PhoneName(n) && !TabletName(n) && !Contains(n, "camera") && Contains(n, "tv")
    ensures r == SmartphoneIcon <==>
      !LaptopName(n) && (PhoneName(n) || (!TabletName(n) && !Contains(n, "camera") && !Contains(n, "tv")))
  {
    if Contains(n, "macbook") || Contains(n, "laptop") then LaptopIcon
    else if Contains(n, "iphone") || Contains(n, "phone") || Contains(n, "mobile") then SmartphoneIcon
    else if Contains(n, "ipad") || Contains(n, "tablet") then TabletIcon
    else if Contains(n, "camera") then CameraIcon
    else if Contains(n, "tv") then MonitorIcon
    else SmartphoneIcon
  }

  /** A device type in the table decides the icon; otherwise the name does. */
  function IconFor(deviceType: string, name: Value): (r: Icon)
    ensures IconMap(deviceType).Some? ==> r == IconMap(deviceType).value
    ensures IconMap(deviceType).None? ==> r == IconFromName(LowerName(name))
  {
    match IconMap(deviceType)
    case Some(icon) => icon
    case None => IconFromName(LowerName(name))
  }

  /** The name is irrelevant once the device type is known. */
  lemma DeviceTypeDecides(deviceType: string, a: Value, b: Value)
    requires IconMap(deviceType).Some?
    ensures IconFor(deviceType, a) == IconFor(deviceType, b)
  {
  }

  /** "iphone" contains "phone", so its own test never decides anything. */
  lemma IphoneIsPhone(n: string)
    requires Contains(n, "iphone")
    ensures Contains(n, "phone")
  {
    var s := "iphone";
    assert s[1..6] == "phone" by {
      assert |s[1..6]| == 5;
      assert s[1..6][0] == 'p' && s[1..6][1] == 'h' && s[1..6][2] == 'o' && s[1..6][3] == 'n' && s[1..6][4] == 'e';
    }
    ContainsAt(s, "phone", 1);
    ContainsTrans(n, s, "phone");
  }

  /** A device without a name and without a known type shows a phone. */
  lemma NamelessIsSmartphone(deviceType: string, name: Value)
    requires IconMap(deviceType).None? && !Truthy(name)
    ensures IconFor(deviceType, name) == SmartphoneIcon
  {
    assert !Contains("", "macbook") && !Contains("", "laptop") && !Contains("", "phone") && !Contains("", "mobile");
    assert !Contains("", "iphone") && !Contains("", "ipad") && !Contains("", "tablet") && !Contains("", "camera");
    assert !Contains("", "tv");
  }

  /** How the icon is drawn: a green glow behind it, or dimmed and in
      greyscale. */
  datatype Look = Look(glow: bool, dimmed: bool)

  /** An online device (truthy `is_online`) glows; any other is dimmed and
      greyscale; no device is drawn both ways or neither. */
  function IconLook(isOnline: Value): (r: Look)
    ensures r.glow <==> Truthy(isOnline)
    ensures r.dimmed <==> !r.glow
  {
    Look(Truthy(isOnline), !Truthy(isOnline))
  }
}
