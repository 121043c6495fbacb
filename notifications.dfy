/** The notification centre: how a notification's action URL from the
    backend becomes a frontend route, the unread badge, and the icon and
    colour of a notification. */
module Notifications {
  import opened Seqs
  import opened Strings

  /** `url.replace(/\/+$/, '')`. */
  function StripTrailingSlashes(s: string): (r: string)
    ensures r <= s
    ensures |r| == 0 || r[|r| - 1] != '/'
    ensures forall k :: |r| <= k < |s| ==> s[k] == '/'
    decreases |s|
  {
    if |s| > 0 && s[|s| - 1] == '/' then StripTrailingSlashes(s[..|s| - 1]) else s
  }

  lemma StripNoSlash(s: string)
    requires |s| == 0 || s[|s| - 1] != '/'
    ensures StripTrailingSlashes(s) == s
  {
  }

  const ItemPrefix := "/admin/device-types/"
  const Dashboard := "/dashboard"
  const PendingList := Dashboard + "/admin/device-types?filter=pending"

  /** `/\/admin\/device-types\/\d+/` finds a match at `i`. */
  predicate ItemAt(s: string, i: nat)
  {
    i + |ItemPrefix| < |s| && s[i..i + |ItemPrefix|] == ItemPrefix && IsDigit(s[i + |ItemPrefix|])
  }

  predicate MatchesItem(s: string) { exists i: nat | i < |s| :: ItemAt(s, i) }

  /** The route a notification links to. An item of the device-types list
      goes to the pending list; any other URL lands inside the dashboard
      unless it is already there or external. The branch for "/admin/"
      agrees with the general one. */
  function GetActionUrl(url: string): (r: string)
    ensures var n := StripTrailingSlashes(url);
      (MatchesItem(n) ==> r == PendingList)
      && (!MatchesItem(n) ==> r == if StartsWith(n, Dashboard) || StartsWith(n, "http") then n else Dashboard + n)
    ensures StartsWith(r, Dashboard) || StartsWith(r, "http")
  {
    var n := StripTrailingSlashes(url);
    if MatchesItem(n) then
      assert PendingList[..|Dashboard|] == Dashboard;
      PendingList
    else if StartsWith(n, "/admin/") then
      assert !StartsWith(n, Dashboard) && !StartsWith(n, "http") by {
        assert n[1] == 'a';
      }
      assert (Dashboard + n)[..|Dashboard|] == Dashboard;
      Dashboard + n
    else if !StartsWith(n, Dashboard) && !StartsWith(n, "http") then
      assert (Dashboard + n)[..|Dashboard|] == Dashboard;
      Dashboard + n
    else n
  }

  /** Putting "/dashboard" in front creates no new item match. */
  lemma PrefixAddsNoMatch(n: string)
    requires !MatchesItem(n)
    ensures !MatchesItem(Dashboard + n)
  {
    var s := Dashboard + n;
    var m := |ItemPrefix|;
    forall i: nat | i < |s| ensures !ItemAt(s, i) {
      if i >= |Dashboard| {
        var j := i - |Dashboard|;
        assert !ItemAt(n, j);
        if i + m < |s| {
          assert s[i..i + m] == n[j..j + m];
          assert s[i + m] == n[j + m];
        }
      } else if i + m < |s| {
        if i == 0 {
          assert s[i..i + m][1] == Dashboard[1] != ItemPrefix[1];
        } else {
          assert s[i..i + m][0] == Dashboard[i] != ItemPrefix[0];
        }
      }
    }
  }

  lemma PendingListNoMatch()
    ensures !MatchesItem(PendingList)
  {
  }

  /** A route never ends in '/'. */
  lemma ActionUrlNoTrailingSlash(url: string)
    ensures var r := GetActionUrl(url); |r| > 0 && r[|r| - 1] != '/'
  {
    var n := StripTrailingSlashes(url);
    var r := GetActionUrl(url);
    if r == Dashboard + n && |n| > 0 {
      assert r[|r| - 1] == n[|n| - 1];
    }
    if r == n {
      assert StartsWith(n, Dashboard) || StartsWith(n, "http");
    }
  }

  /** Rewriting a route again changes nothing. */
  lemma ActionUrlIdempotent(url: string)
    ensures GetActionUrl(GetActionUrl(url)) == GetActionUrl(url)
  {
    var n := StripTrailingSlashes(url);
    var r := GetActionUrl(url);
    ActionUrlNoTrailingSlash(url);
    StripNoSlash(r);
    if MatchesItem(n) {
      PendingListNoMatch();
    } else if r == Dashboard + n {
      PrefixAddsNoMatch(n);
    }
  }

  // ---------------------------------------------------------------------------
  // Badge, icon and colour

  /** The bell's badge: hidden without unread notifications, "9+" above nine. */
  function UnreadBadge(unread: int): (r: Option<string>)
    ensures r.Some? <==> unread > 0
    ensures unread > 9 ==> r == Some("9+")
    ensures 0 < unread <= 9 ==> r == Some(NatToString(unread)) && |r.value| == 1
  {
    if unread <= 0 then None
    else if unread > 9 then Some("9+")
    else
      assert NatToString(unread) == [DigitChar(unread)];
      Some(NatToString(unread))
  }

  datatype Icon = CpuIcon | CheckIcon | TriangleIcon | WifiOffIcon | WifiIcon | CircleIcon | InfoIcon

  const KnownTypes: seq<string> := ["device_type_pending", "device_type_approved", "device_type_denied",
    "device_offline", "device_online", "device_error", "system", "info", "warning", "error"]

  /** Unknown types fall back to the Info icon. */
  function IconOf(t: string): (r: Icon)
    ensures t !in KnownTypes ==> r == InfoIcon
  {
    if t == "device_type_pending" then CpuIcon
    else if t == "device_type_approved" then CheckIcon
    else if t == "device_type_denied" || t == "warning" then TriangleIcon
    else if t == "device_offline" then WifiOffIcon
    else if t == "device_online" then WifiIcon
    else if t == "device_error" || t == "error" then CircleIcon
    else InfoIcon
  }

  const Blue := "text-blue-500 bg-blue-500/10"

  /** Unknown types fall back to blue. */
  function ColourOf(t: string): (r: string)
    ensures t !in KnownTypes ==> r == Blue
  {
    if t == "device_type_pending" then "text-amber-500 bg-amber-500/10"
    else if t == "device_type_approved" || t == "device_online" then "text-green-500 bg-green-500/10"
    else if t == "device_type_denied" || t == "device_offline" || t == "error" then "text-red-500 bg-red-500/10"
    else if t == "device_error" || t == "warning" then "text-orange-500 bg-orange-500/10"
    else Blue
  }

  /** Clicking a notification marks it read only while it is unread. */
  function ClickMarksRead(id: int, isRead: bool): (r: Option<int>)
    ensures r.Some? <==> !isRead
    ensures r.Some? ==> r.value == id
  {
    if isRead then None else Some(id)
  }
}
