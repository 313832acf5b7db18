/** The approval inbox. A blocked run adds a pending request; the Approve
    button marks the first request with the clicked id as approved. Ids come
    from the clock and are not assumed to be unique. */
module Inbox {
  import Find

  datatype Status = Pending | Approved

  datatype Item = Item(id: int, title: string, details: string, status: Status)

  const RequestTitle: string := "Approve Commit"

  /** The request a blocked run files for a scenario. */
  function Request(id: int, scenarioName: string): (r: Item)
    ensures r.status == Pending && r.id == id && r.title == RequestTitle
  {
    Item(id, RequestTitle, "Scenario " + scenarioName + " requires approval", Pending)
  }

  /** Position of the first item with `id`, or `|items|` when there is none. */
  function FirstIndex(items: seq<Item>, id: int): nat {
    Find.FirstWhere(items, (it: Item) => it.id == id)
  }

  predicate Contains(items: seq<Item>, id: int) {
    exists j :: 0 <= j < |items| && items[j].id == id
  }

  /** The Approve click: the first item with `id`, if any, becomes approved;
      every other item, and every other field, stays as it was. */
  function Approve(items: seq<Item>, id: int): (r: seq<Item>)
    ensures |r| == |items|
    ensures forall i :: 0 <= i < |items| && i != FirstIndex(items, id) ==> r[i] == items[i]
    ensures FirstIndex(items, id) < |items| ==>
      r[FirstIndex(items, id)] == items[FirstIndex(items, id)].(status := Approved)
  {
    if |items| == 0 then []
    else if items[0].id == id then [items[0].(status := Approved)] + items[1..]
    else [items[0]] + Approve(items[1..], id)
  }

  /** An id that no item carries leaves the inbox as it was. */
  lemma ApproveUnknown(items: seq<Item>, id: int)
    requires !Contains(items, id)
    ensures Approve(items, id) == items
  {
    assert FirstIndex(items, id) == |items|;
  }

  /** After approving, the first item with the id is approved. */
  lemma ApproveMarks(items: seq<Item>, id: int)
    requires Contains(items, id)
    ensures var k := FirstIndex(items, id); k < |items| && Approve(items, id)[k].status == Approved
  {
  }

  /** Approving the id of a request just filed approves it, unless an
      earlier request already carries that id. */
  lemma ApproveFiled(items: seq<Item>, req: Item)
    ensures var k := FirstIndex(items + [req], req.id);
      && k < |items| + 1 && Approve(items + [req], req.id)[k].status == Approved
      && (!Contains(items, req.id) ==> k == |items|)
  {
    var all := items + [req];
    assert all[|items|].id == req.id;
    if !Contains(items, req.id) {
      assert forall j :: 0 <= j < |items| ==> all[j] == items[j];
    }
  }

  /** Approving twice is approving once. */
  lemma ApproveIdempotent(items: seq<Item>, id: int)
    ensures Approve(Approve(items, id), id) == Approve(items, id)
  {
    var once := Approve(items, id);
    assert FirstIndex(once, id) == FirstIndex(items, id) by {
      FirstIndexKept(items, once, id);
    }
  }

  /** Approval never touches ids, so the first match does not move. */
  lemma FirstIndexKept(items: seq<Item>, other: seq<Item>, id: int)
    requires |other| == |items|
    requires forall i :: 0 <= i < |items| ==> other[i].id == items[i].id
    ensures FirstIndex(other, id) == FirstIndex(items, id)
  {
  }

  /** Status only moves forward: an approved item is never pending again, and
      no item other than the first match changes status. */
  lemma ApproveMonotone(items: seq<Item>, id: int)
    ensures forall i :: 0 <= i < |items| && items[i].status == Approved ==>
      Approve(items, id)[i].status == Approved
    ensures forall i :: 0 <= i < |items| ==>
      Approve(items, id)[i].status == Pending ==> items[i].status == Pending
  {
  }
}
