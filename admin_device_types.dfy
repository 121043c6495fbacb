/** The admin device-type review page: the approved, pending and denied
    lists merged under a status filter, their counts, the reviewed item and
    its graph, the selection of denied types for bulk deletion, and the
    calls the review actions make. */
module AdminDeviceTypes {
  import opened Seqs
  import opened DeviceBuilder
  import opened Structure
  import Strings

  datatype Status = Approved | Pending | Denied

  datatype StatusFilter = All | Only(status: Status)

  /** A listed device type with the `_status` tag the page adds. */
  datatype Tagged = Tagged(item: DeviceType, status: Status)

  function Tag(ts: seq<DeviceType>, st: Status): (r: seq<Tagged>)
    ensures |r| == |ts|
    ensures forall k :: 0 <= k < |ts| ==> r[k] == Tagged(ts[k], st)
  {
    Map((t: DeviceType) => Tagged(t, st), ts)
  }

  function Combined(approved: seq<DeviceType>, pending: seq<DeviceType>, denied: seq<DeviceType>): seq<Tagged>
  {
    Tag(approved, Approved) + Tag(pending, Pending) + Tag(denied, Denied)
  }

  function HasStatus(st: Status): Tagged -> bool { (t: Tagged) => t.status == st }

  /** `allTypes`: every list tagged with its status, in the order approved,
      pending, denied; a status filter keeps that status's entries only. */
  function AllTypes(approved: seq<DeviceType>, pending: seq<DeviceType>, denied: seq<DeviceType>, f: StatusFilter): (r: seq<Tagged>)
    ensures f == All ==> r == Tag(approved, Approved) + Tag(pending, Pending) + Tag(denied, Denied)
    ensures f.Only? ==> forall k :: 0 <= k < |r| ==> r[k].status == f.status
  {
    var c := Combined(approved, pending, denied);
    match f
    case All => c
    case Only(st) => Filter(HasStatus(st), c)
  }

  lemma {:induction false} FilterNone(p: Tagged -> bool, xs: seq<Tagged>)
    requires forall k :: 0 <= k < |xs| ==> !p(xs[k])
    ensures Filter(p, xs) == []
    decreases |xs|
  {
    if |xs| > 0 {
      FilterNone(p, xs[1..]);
    }
  }

  /** A status filter keeps a whole tagged list of that status and nothing
      of another. */
  lemma FilterTag(st: Status, ts: seq<DeviceType>, tag: Status)
    ensures Filter(HasStatus(st), Tag(ts, tag)) == if st == tag then Tag(ts, tag) else []
  {
    var p, t := HasStatus(st), Tag(ts, tag);
    if st == tag {
      FilterAll(p, t);
    } else {
      FilterNone(p, t);
    }
  }

  /** Filtering one status out of the merged list gives exactly that status's
      list, tagged. */
  lemma FilterByStatus(approved: seq<DeviceType>, pending: seq<DeviceType>, denied: seq<DeviceType>, st: Status)
    ensures AllTypes(approved, pending, denied, Only(st)) ==
      Tag(match st case Approved => approved case Pending => pending case Denied => denied, st)
  {
    var p := HasStatus(st);
    var a, b, c := Tag(approved, Approved), Tag(pending, Pending), Tag(denied, Denied);
    calc {
      AllTypes(approved, pending, denied, Only(st));
      Filter(p, a + b + c);
      { FilterAppend(p, a + b, c); }
      Filter(p, a + b) + Filter(p, c);
      { FilterAppend(p, a, b); }
      Filter(p, a) + Filter(p, b) + Filter(p, c);
    }
    FilterTag(st, approved, Approved);
    FilterTag(st, pending, Pending);
    FilterTag(st, denied, Denied);
    match st {
      case Approved => assert Filter(p, a) + Filter(p, b) + Filter(p, c) == a + [] + [];
      case Pending => assert Filter(p, a) + Filter(p, b) + Filter(p, c) == [] + b + [];
      case Denied => assert Filter(p, a) + Filter(p, b) + Filter(p, c) == [] + [] + c;
    }
  }

  datatype Counts = Counts(all: nat, approved: nat, pending: nat, denied: nat)

  /** The badge counts: each badge counts exactly what its filter lists,
      and the "all" badge is the sum of the three others. */
  function GetCounts(approved: seq<DeviceType>, pending: seq<DeviceType>, denied: seq<DeviceType>): (r: Counts)
    ensures r.all == r.approved + r.pending + r.denied
    ensures r.all == |AllTypes(approved, pending, denied, All)|
    ensures r.approved == |AllTypes(approved, pending, denied, Only(Approved))|
    ensures r.pending == |AllTypes(approved, pending, denied, Only(Pending))|
    ensures r.denied == |AllTypes(approved, pending, denied, Only(Denied))|
  {
    FilterByStatus(approved, pending, denied, Approved);
    FilterByStatus(approved, pending, denied, Pending);
    FilterByStatus(approved, pending, denied, Denied);
    Counts(|approved| + |pending| + |denied|, |approved|, |pending|, |denied|)
  }

  // ---------------------------------------------------------------------------
  // The reviewed item

  /** What the page shows for the reviewed item. */
  datatype Review = Review(selected: Option<Tagged>, editName: string, editing: bool,
                           nodes: seq<Node>, edges: seq<Edge>)

  /** `handleSelect`: the item, its name for editing and its reconstructed
      graph, which is empty when the item has no structure. */
  function HandleSelect(t: Tagged): (r: Review)
    ensures r.selected == Some(t) && r.editName == t.item.name && !r.editing
    ensures t.item.structure.None? ==> r.nodes == [] && r.edges == []
    ensures t.item.structure.Some? ==>
      r.nodes == StructureNodes(t.item.structure.value) && r.edges == ParentEdges(t.item.structure.value)
  {
    var g := Reconstructed(t.item.structure);
    Review(Some(t), t.item.name, false, g.0, g.1)
  }

  predicate SameItem(a: Tagged, b: Tagged) { a.item.id == b.item.id && a.status == b.status }

  predicate Listed(types: seq<Tagged>, t: Tagged)
  {
    exists k :: 0 <= k < |types| && SameItem(types[k], t)
  }

  /** After the list or the filter changes: a reviewed item still listed
      stays; otherwise the first listed item is reviewed, and an empty list
      reviews nothing. */
  function AutoSelect(types: seq<Tagged>, current: Review): (r: Review)
    ensures |types| == 0 ==> r.selected.None? && r.nodes == [] && r.edges == []
    ensures |types| > 0 && current.selected.Some? && Listed(types, current.selected.value) ==> r == current
    ensures |types| > 0 && !(current.selected.Some? && Listed(types, current.selected.value)) ==>
      r == HandleSelect(types[0])
  {
    if |types| > 0 then
      if current.selected.Some? && Listed(types, current.selected.value) then current
      else HandleSelect(types[0])
    else
      current.(selected := None, nodes := [], edges := [])
  }

  // ---------------------------------------------------------------------------
  // Selection of denied types: a JavaScript Set, kept in insertion order

  predicate NoDuplicates(ids: seq<int>) { forall i, j :: 0 <= i < j < |ids| ==> ids[i] != ids[j] }

  function Remove(ids: seq<int>, id: int): (r: seq<int>)
    ensures forall x :: x in r <==> x in ids && x != id
    ensures NoDuplicates(ids) ==> NoDuplicates(r)
    ensures IsSubsequence(r, ids)
  {
    FilterIsSubsequence((x: int) => x != id, ids);
    var r := Filter((x: int) => x != id, ids);
    assert forall x :: x in ids && x != id ==> x in r by {
      forall x | x in ids && x != id ensures x in r {
        var k :| 0 <= k < |ids| && ids[k] == x;
      }
    }
    if NoDuplicates(ids) then
      SubsequenceNoDuplicates(r, ids);
      r
    else r
  }

  lemma {:induction false} SubsequenceNoDuplicates(xs: seq<int>, ys: seq<int>)
    requires IsSubsequence(xs, ys) && NoDuplicates(ys)
    ensures NoDuplicates(xs)
    ensures forall x :: x in xs ==> x in ys
    decreases |ys|
  {
    if |xs| > 0 {
      if xs[0] == ys[0] {
        SubsequenceNoDuplicates(xs[1..], ys[1..]);
        assert forall x :: x in xs[1..] ==> x in ys[1..];
        assert xs[0] !in ys[1..] by {
          forall k | 0 <= k < |ys[1..]| ensures ys[1..][k] != xs[0] {
            assert ys[k + 1] != ys[0];
          }
        }
        forall i, j | 0 <= i < j < |xs| ensures xs[i] != xs[j] {
          if i > 0 {
            assert xs[i] == xs[1..][i - 1] && xs[j] == xs[1..][j - 1];
          } else {
            assert xs[j] in xs[1..];
          }
        }
        assert forall x :: x in xs ==> x == xs[0] || x in xs[1..];
      } else {
        SubsequenceNoDuplicates(xs, ys[1..]);
      }
    }
  }

  /** `handleToggleSelect`: checking adds the id (once), unchecking removes
      it; no other id is affected. */
  function ToggleSelect(sel: seq<int>, id: int, checked: bool): (r: seq<int>)
    ensures id in r <==> checked
    ensures forall x :: x != id ==> (x in r <==> x in sel)
    ensures NoDuplicates(sel) ==> NoDuplicates(r)
  {
    if checked then (if id in sel then sel else sel + [id])
    else Remove(sel, id)
  }

  function DeniedIds(denied: seq<DeviceType>): (r: seq<int>)
    ensures |r| == |denied| && forall k :: 0 <= k < |denied| ==> r[k] == denied[k].id
  {
    Map((t: DeviceType) => t.id, denied)
  }

  /** `new Set(ids)`: the ids in first-occurrence order. */
  function Dedup(ids: seq<int>): (r: seq<int>)
    ensures forall x :: x in r <==> x in ids
    ensures NoDuplicates(r)
    decreases |ids|
  {
    if |ids| == 0 then []
    else
      var rest := Dedup(ids[..|ids| - 1]);
      if ids[|ids| - 1] in rest then rest else rest + [ids[|ids| - 1]]
  }

  /** "Select all": when as many ids are selected as there are denied types
      the selection is cleared, otherwise it becomes exactly the denied ids. */
  function SelectAllDenied(sel: seq<int>, denied: seq<DeviceType>): (r: seq<int>)
    ensures |sel| == |denied| ==> r == []
    ensures |sel| != |denied| ==> forall x :: x in r <==> exists k :: 0 <= k < |denied| && denied[k].id == x
    ensures NoDuplicates(r)
  {
    if |sel| == |denied| then [] else Dedup(DeniedIds(denied))
  }

  predicate IsDeniedId(denied: seq<DeviceType>, id: int) { exists k :: 0 <= k < |denied| && denied[k].id == id }

  /** The test `selectedDeniedCount` applies to each selected id. */
  function DeniedTest(denied: seq<DeviceType>): int -> bool
  {
    (id: int) => IsDeniedId(denied, id)
  }

  /** `selectedDeniedCount`: how many selected ids are ids of denied types. */
  function SelectedDeniedCount(sel: seq<int>, denied: seq<DeviceType>): (r: nat)
    ensures r <= |sel|
    ensures r == |Filter(DeniedTest(denied), sel)|
    ensures r == 0 <==> forall k :: 0 <= k < |sel| ==> !IsDeniedId(denied, sel[k])
    ensures r == |sel| <==> forall k :: 0 <= k < |sel| ==> IsDeniedId(denied, sel[k])
    decreases |sel|
  {
    if |sel| == 0 then 0
    else (if IsDeniedId(denied, sel[0]) then 1 else 0) + SelectedDeniedCount(sel[1..], denied)
  }

  /** With distinct denied ids and a selection made only of denied ids,
      "Select all" selects every denied type and pressing it again clears
      the selection. */
  lemma SelectAllTwice(sel: seq<int>, denied: seq<DeviceType>)
    requires NoDuplicates(DeniedIds(denied)) && |sel| != |denied|
    ensures var once := SelectAllDenied(sel, denied);
      |once| == |denied| && SelectAllDenied(once, denied) == []
  {
    var ids := DeniedIds(denied);
    DedupOfDistinct(ids);
  }

  lemma {:induction false} DedupOfDistinct(ids: seq<int>)
    requires NoDuplicates(ids)
    ensures Dedup(ids) == ids
    decreases |ids|
  {
    if |ids| > 0 {
      var init := ids[..|ids| - 1];
      DedupOfDistinct(init);
      assert ids[|ids| - 1] !in init by {
        forall k | 0 <= k < |init| ensures init[k] != ids[|ids| - 1] {
          assert ids[k] != ids[|ids| - 1];
        }
      }
      assert init + [ids[|ids| - 1]] == ids;
    }
  }

  // ---------------------------------------------------------------------------
  // Review actions

  datatype ApiCall =
    | Rename(id: int, name: string)
    | Approve(id: int)
    | Deny(id: int, reason: string)
    | DeleteType(id: int)
    | DeleteDenied(id: int)
    | BulkDeleteDenied(ids: seq<int>)

  /** Approving renames first exactly when a new, non-empty name differs
      from the current one. `newName` is the edited name while editing. */
  function HandleApprove(selected: Option<Tagged>, newName: Option<string>): (r: seq<ApiCall>)
    ensures selected.None? ==> r == []
    ensures selected.Some? ==> |r| >= 1 && r[|r| - 1] == Approve(selected.value.item.id)
    ensures selected.Some? ==>
      (|r| == 2 <==> newName.Some? && newName.value != "" && newName.value != selected.value.item.name)
    ensures |r| == 2 ==> r[0] == Rename(selected.value.item.id, newName.value)
  {
    match selected
    case None => []
    case Some(t) =>
      if newName.Some? && newName.value != "" && newName.value != t.item.name
      then [Rename(t.item.id, newName.value), Approve(t.item.id)]
      else [Approve(t.item.id)]
  }

  /** Denying needs a reviewed item and a non-empty reason. */
  function HandleDeny(selected: Option<Tagged>, reason: string): (r: Option<ApiCall>)
    ensures r.Some? <==> selected.Some? && reason != ""
    ensures r.Some? ==> r.value == Deny(selected.value.item.id, reason)
  {
    if selected.None? || reason == "" then None else Some(Deny(selected.value.item.id, reason))
  }

  /** Deleting uses the denied-type call exactly for denied items. */
  function HandleDelete(selected: Option<Tagged>): (r: Option<ApiCall>)
    ensures selected.None? ==> r.None?
    ensures selected.Some? && selected.value.status == Denied ==> r == Some(DeleteDenied(selected.value.item.id))
    ensures selected.Some? && selected.value.status != Denied ==> r == Some(DeleteType(selected.value.item.id))
  {
    match selected
    case None => None
    case Some(t) => if t.status == Denied then Some(DeleteDenied(t.item.id)) else Some(DeleteType(t.item.id))
  }

  /** Bulk deletion sends the selected ids, and nothing when none is selected. */
  function HandleBulkDelete(sel: seq<int>): (r: Option<ApiCall>)
    ensures |sel| == 0 <==> r.None?
    ensures r.Some? ==> r.value == BulkDeleteDenied(sel)
  {
    if |sel| == 0 then None else Some(BulkDeleteDenied(sel))
  }

  /** The deny dialog's button is disabled while the trimmed reason is
      empty, that is while the reason is white space only, and while the
      request is under way. */
  predicate DenyEnabled(reason: string, busy: bool)
    ensures DenyEnabled(reason, busy) <==> !Strings.Blank(reason) && !busy
  {
    Strings.TrimEmptyIffBlank(reason);
    Strings.Trim(reason) != "" && !busy
  }
}
