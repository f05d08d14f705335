/**
  The detail page of one change request: finding the request named by the route, the
  not-found case, the action buttons offered, and what the buttons' handlers do.
 */
module ChangeRequestDetail {
  import opened Wrappers
  import opened ChangeRequestTypes
  import opened Sequences
  import ChangeRequestCard
  import MockData

  /** `mockChangeRequests.find(c => c.id === id)`. The route may carry no id, and then nothing matches. */
  function Lookup(crs: seq<ChangeRequest>, routeId: Option<string>): (r: Option<ChangeRequest>)
    ensures r.None? <==> routeId.None? || forall i :: 0 <= i < |crs| ==> crs[i].id != routeId.value
    ensures r.Some? ==> routeId.Some? && exists i :: (0 <= i < |crs| && crs[i] == r.value
      && crs[i].id == routeId.value && forall j :: 0 <= j < i ==> crs[j].id != routeId.value)
  {
    match routeId
    case None => None
    case Some(id) => Find((c: ChangeRequest) => c.id == id, crs)
  }

  /** The buttons in the page's header. */
  datatype Action = SendEmail | Print | Edit | Approve | Reject

  /** The actions offered for a request: Approve and Reject only while it is Pending. */
  function Actions(cr: ChangeRequest): (r: seq<Action>)
    ensures SendEmail in r && Print in r && Edit in r
    ensures Approve in r <==> cr.status == Pending
    ensures Reject in r <==> cr.status == Pending
  {
    [SendEmail, Print, Edit] + (if cr.status == Pending then [Approve, Reject] else [])
  }

  /** What the page renders for a route. */
  datatype Page = NotFound | Showing(cr: ChangeRequest, actions: seq<Action>)

  /** The page shows the first request whose id is the route's, with Approve and Reject
      offered only when it is Pending; with no id in the route, or no request of that id,
      it shows 'not found'. */
  function Render(crs: seq<ChangeRequest>, routeId: Option<string>): (p: Page)
    ensures p.NotFound? <==> routeId.None? || forall i :: 0 <= i < |crs| ==> crs[i].id != routeId.value
    ensures p.Showing? ==> (routeId.Some? && p.cr.id == routeId.value
      && exists i :: 0 <= i < |crs| && crs[i] == p.cr && forall j :: 0 <= j < i ==> crs[j].id != routeId.value)
    ensures p.Showing? ==> (SendEmail in p.actions && Print in p.actions && Edit in p.actions
      && (Approve in p.actions <==> p.cr.status == Pending) && (Reject in p.actions <==> p.cr.status == Pending))
  {
    match Lookup(crs, routeId)
    case None => NotFound
    case Some(cr) => Showing(cr, Actions(cr))
  }

  /** The notices the handlers raise. */
  datatype Notice = EmailSent(recipients: nat) | ApprovedNotice(requestId: string) | RejectedNotice(requestId: string)

  /** A handler's effect: the request as it stands afterwards, and the notice shown. */
  datatype Effect = Effect(cr: ChangeRequest, notice: Notice)

  /** `handleSendEmail`: reports one notification per approver and changes nothing. */
  function HandleSendEmail(cr: ChangeRequest): Effect
  {
    Effect(cr, EmailSent(|cr.approvers|))
  }

  /** `handleApprove`: announces the approval; the request, its status included, is left as it was. */
  function HandleApprove(cr: ChangeRequest): Effect
  {
    Effect(cr, ApprovedNotice(cr.requestId))
  }

  /** `handleReject`: announces the rejection; the request, its status included, is left as it was. */
  function HandleReject(cr: ChangeRequest): Effect
  {
    Effect(cr, RejectedNotice(cr.requestId))
  }

  /** No handler changes the request: its status stays, so Approve and Reject stay on offer
      after either is pressed. The notices name the request's display id, and the e-mail
      notice counts every approver, not only those who have approved. */
  lemma HandlersKeepActions(cr: ChangeRequest)
    ensures HandleApprove(cr).cr.status == cr.status && HandleReject(cr).cr.status == cr.status
    ensures Actions(HandleApprove(cr).cr) == Actions(cr)
    ensures Actions(HandleReject(cr).cr) == Actions(cr)
    ensures Actions(HandleSendEmail(cr).cr) == Actions(cr)
    ensures cr.status == Pending ==> Approve in Actions(HandleApprove(cr).cr) && Reject in Actions(HandleReject(cr).cr)
    ensures HandleApprove(cr).notice.requestId == cr.requestId && HandleReject(cr).notice.requestId == cr.requestId
    ensures HandleSendEmail(cr).notice.recipients == |cr.approvers| >= ChangeRequestCard.ApprovedCount(cr)
  {
  }

  /** With the fixture, route "1" shows the Pending request and route "2" the Approved one. */
  lemma FixtureLookupFound()
    ensures Lookup(MockData.MockChangeRequests, Some("1")) == Some(MockData.CR003)
    ensures Lookup(MockData.MockChangeRequests, Some("2")) == Some(MockData.CR002)
  {
    var crs := MockData.MockChangeRequests;
    assert crs[0].id == "1" && crs[1].id == "2";
    FindIsFirst((c: ChangeRequest) => c.id == "1", crs, 0);
    FindIsFirst((c: ChangeRequest) => c.id == "2", crs, 1);
  }

  /** With the fixture, an unknown id or a missing id shows 'not found'. */
  lemma FixtureLookupMissing()
    ensures Render(MockData.MockChangeRequests, Some("4")) == NotFound
    ensures Render(MockData.MockChangeRequests, None) == NotFound
  {
    var crs := MockData.MockChangeRequests;
    assert crs[0].id == "1" && crs[1].id == "2" && crs[2].id == "3";
  }

  /** The Pending fixture request offers Approve; the Approved one does not. */
  lemma FixtureActions()
    ensures Approve in Actions(MockData.CR003) && Approve !in Actions(MockData.CR002)
  {
  }
}
