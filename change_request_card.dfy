/**
  The summary card of one change request: the "approved / total" ratio and the link to
  the request's detail page.
 */
module ChangeRequestCard {
  import opened ChangeRequestTypes
  import opened Sequences
  import opened Text
  import Header
  import MockData

  predicate IsApproved(a: Approver)
  {
    a.status == Approved
  }

  /** `approvedCount`: how many of the request's approvers have status Approved. */
  function ApprovedCount(cr: ChangeRequest): (n: nat)
    ensures n == |set i | 0 <= i < |cr.approvers| && cr.approvers[i].status == Approved|
    ensures n <= |cr.approvers|
  {
    FilterLengthCountsIndices(IsApproved, cr.approvers);
    assert IndicesWhere(IsApproved, cr.approvers)
      == set i | 0 <= i < |cr.approvers| && cr.approvers[i].status == Approved;
    |Filter(IsApproved, cr.approvers)|
  }

  /** The card reads "n/n Approved" exactly when every approver has approved. */
  lemma AllApprovedIff(cr: ChangeRequest)
    ensures ApprovedCount(cr) == |cr.approvers| <==>
      forall i :: 0 <= i < |cr.approvers| ==> cr.approvers[i].status == Approved
  {
    FilterLengthFull(IsApproved, cr.approvers);
  }

  const DetailPrefix: string := "/change-requests/"

  /** The card's link target. */
  function DetailPath(cr: ChangeRequest): (path: string)
    ensures StartsWith(path, DetailPrefix) && path[|DetailPrefix|..] == cr.id
  {
    DetailPrefix + cr.id
  }

  /** Different ids give different links, so each card leads to its own request. */
  lemma DetailPathInjective(a: ChangeRequest, b: ChangeRequest)
    ensures DetailPath(a) == DetailPath(b) <==> a.id == b.id
  {
  }

  /** While a detail page is open, the header highlights 'Change Requests'. */
  lemma DetailPathActivatesList(cr: ChangeRequest)
    ensures Header.IsActive(DetailPath(cr), Header.NavItems[1].to)
    ensures !Header.IsActive(DetailPath(cr), Header.NavItems[0].to)
    ensures !Header.IsActive(DetailPath(cr), Header.NavItems[2].to)
  {
    var path := DetailPath(cr);
    assert Header.NavItems[1].to + "/" == DetailPrefix;
    assert path[1] == 'c';
    if Header.IsActive(path, Header.NavItems[0].to) {
      Header.ActiveSharesSecondChar(path, Header.NavItems[0].to);
    }
    if Header.IsActive(path, Header.NavItems[2].to) {
      Header.ActiveSharesSecondChar(path, Header.NavItems[2].to);
    }
  }

  /** The Pending fixture request shows "1/2 Approved". */
  lemma FixturePendingRatio()
    ensures ApprovedCount(MockData.CR003) == 1 && |MockData.CR003.approvers| == 2
  {
    var s := MockData.CR003.approvers;
    assert s == [s[0]] + ([s[1]] + []);
    assert IsApproved(s[0]) && !IsApproved(s[1]);
    FilterCons(IsApproved, s[1], []);
    FilterCons(IsApproved, s[0], [s[1]] + []);
  }
}
