/** The approvals page: the list of pending device types, the reviewed one
    and its graph, and how approving or denying takes an item off the list. */
module Approvals {
  import opened Seqs
  import opened DeviceBuilder
  import opened Structure

  datatype Page = Page(pending: seq<DeviceType>, selected: Option<DeviceType>, nodes: seq<Node>, edges: seq<Edge>)

  /** `handleSelect`: the item and its reconstructed graph; an item without
      a structure shows an empty graph. */
  function HandleSelect(p: Page, t: DeviceType): (r: Page)
    ensures r.pending == p.pending && r.selected == Some(t)
    ensures t.structure.None? ==> r.nodes == [] && r.edges == []
    ensures t.structure.Some? ==> r.nodes == StructureNodes(t.structure.value) && r.edges == ParentEdges(t.structure.value)
  {
    var g := Reconstructed(t.structure);
    p.(selected := Some(t), nodes := g.0, edges := g.1)
  }

  /** Loading: the first pending item is reviewed only when nothing is, and
      an empty list clears the review. */
  function LoadPending(p: Page, raw: seq<DeviceType>): (r: Page)
    ensures r.pending == raw
    ensures |raw| > 0 && p.selected.None? ==> r == HandleSelect(p.(pending := raw), raw[0])
    ensures |raw| > 0 && p.selected.Some? ==> r.selected == p.selected && r.nodes == p.nodes && r.edges == p.edges
    ensures |raw| == 0 ==> r.selected.None?
  {
    var q := p.(pending := raw);
    if |raw| > 0 && p.selected.None? then HandleSelect(q, raw[0])
    else if |raw| == 0 then q.(selected := None)
    else q
  }

  /** Every entry with the id leaves the list, the others keep their order,
      and the first remaining entry is reviewed (nothing when none remains). */
  function HandleRemoveFromList(p: Page, id: int): (r: Page)
    ensures forall k :: 0 <= k < |r.pending| ==> r.pending[k] in p.pending && r.pending[k].id != id
    ensures forall k :: 0 <= k < |p.pending| && p.pending[k].id != id ==> p.pending[k] in r.pending
    ensures IsSubsequence(r.pending, p.pending)
    ensures |r.pending| == 0 ==> r.selected.None?
    ensures |r.pending| > 0 ==> r == HandleSelect(p.(pending := r.pending), r.pending[0])
  {
    var keep := (t: DeviceType) => t.id != id;
    FilterIsSubsequence(keep, p.pending);
    var remaining := Filter(keep, p.pending);
    var q := p.(pending := remaining);
    if |remaining| > 0 then HandleSelect(q, remaining[0]) else q.(selected := None)
  }

  datatype ApiCall = Approve(id: int) | Deny(id: int, reason: string)

  /** Approving calls the API for the reviewed item and, when the call
      succeeds, takes it off the list. */
  function HandleApprove(p: Page, succeeded: bool): (r: (Option<ApiCall>, Page))
    ensures p.selected.None? ==> r == (None, p)
    ensures p.selected.Some? ==> r.0 == Some(Approve(p.selected.value.id))
    ensures p.selected.Some? && !succeeded ==> r.1 == p
    ensures p.selected.Some? && succeeded ==> r.1 == HandleRemoveFromList(p, p.selected.value.id)
  {
    match p.selected
    case None => (None, p)
    case Some(t) => (Some(Approve(t.id)), if succeeded then HandleRemoveFromList(p, t.id) else p)
  }

  /** Denying needs a reviewed item and a non-empty reason; otherwise no
      call is made and nothing changes. */
  function HandleDeny(p: Page, reason: string, succeeded: bool): (r: (Option<ApiCall>, Page))
    ensures p.selected.None? || reason == "" ==> r == (None, p)
    ensures p.selected.Some? && reason != "" ==> r.0 == Some(Deny(p.selected.value.id, reason))
    ensures p.selected.Some? && reason != "" && !succeeded ==> r.1 == p
    ensures p.selected.Some? && reason != "" && succeeded ==> r.1 == HandleRemoveFromList(p, p.selected.value.id)
  {
    if p.selected.None? || reason == "" then (None, p)
    else (Some(Deny(p.selected.value.id, reason)), if succeeded then HandleRemoveFromList(p, p.selected.value.id) else p)
  }

  /** A decided item is no longer pending, and the list shrinks by at least one. */
  lemma DecidedItemLeaves(p: Page, succeeded: bool)
    requires p.selected.Some? && succeeded && p.selected.value in p.pending
    ensures var q := HandleApprove(p, succeeded).1;
      (forall k :: 0 <= k < |q.pending| ==> q.pending[k].id != p.selected.value.id)
      && |q.pending| < |p.pending|
  {
    var id := p.selected.value.id;
    var keep := (t: DeviceType) => t.id != id;
    var k :| 0 <= k < |p.pending| && p.pending[k] == p.selected.value;
    FilterSkips(keep, p.pending, k);
  }

  lemma {:induction false} FilterSkips(p: DeviceType -> bool, xs: seq<DeviceType>, k: nat)
    requires k < |xs| && !p(xs[k])
    ensures |Filter(p, xs)| < |xs|
    decreases |xs|
  {
    if k > 0 {
      FilterSkips(p, xs[1..], k - 1);
    } else {
      assert |Filter(p, xs[1..])| <= |xs[1..]|;
    }
  }
}
