/**
  The create-change-request page: the form fields, the list of approvers picked for the
  request, and the flag that is set while a submission is in flight.
 */
module CreateChangeRequest {
  import opened Wrappers
  import opened ChangeRequestTypes
  import opened Sequences
  import MockData

  /** What the page keeps of a picked approver. */
  datatype ApproverSelection = ApproverSelection(id: string, name: string, email: string)

  function SelectionOf(u: User): ApproverSelection
  {
    ApproverSelection(u.id, u.name, u.email)
  }

  /** `availableApprovers`: the user accounts whose role is Approver, in their original order. */
  function AvailableApprovers(users: seq<User>): (r: seq<User>)
    ensures IsSubsequence(r, users)
    ensures forall u :: u in r ==> u in users && u.role == ApproverRole
    ensures forall u :: u in users && u.role == ApproverRole ==> u in r
    ensures forall u :: multiset(r)[u] == if u.role == ApproverRole then multiset(users)[u] else 0
  {
    var isApprover := (u: User) => u.role == ApproverRole;
    FilterSpec(isApprover, users);
    FilterMultisetAll(isApprover, users);
    Filter(isApprover, users)
  }

  predicate HasId(sel: seq<ApproverSelection>, id: string)
  {
    exists i :: 0 <= i < |sel| && sel[i].id == id
  }

  predicate NoDuplicateIds(sel: seq<ApproverSelection>)
  {
    forall i, j :: 0 <= i < j < |sel| ==> sel[i].id != sel[j].id
  }

  /** `addApprover(userId)` on the selection `sel`: when an available approver has that id and
      no selected entry has it, the first such approver is appended; otherwise nothing changes. */
  function AddSelection(sel: seq<ApproverSelection>, available: seq<User>, userId: string): (r: seq<ApproverSelection>)
    ensures (forall i :: 0 <= i < |available| ==> available[i].id != userId) ==> r == sel
    ensures HasId(sel, userId) ==> r == sel
    ensures (exists i :: 0 <= i < |available| && available[i].id == userId) && !HasId(sel, userId) ==>
      exists i :: 0 <= i < |available| && available[i].id == userId
        && (forall j :: 0 <= j < i ==> available[j].id != userId)
        && r == sel + [ApproverSelection(userId, available[i].name, available[i].email)]
    ensures NoDuplicateIds(sel) ==> NoDuplicateIds(r)
  {
    match Find((u: User) => u.id == userId, available)
    case None => sel
    case Some(user) =>
      if Find((a: ApproverSelection) => a.id == userId, sel).Some? then sel
      else sel + [SelectionOf(user)]
  }

  /** `removeApprover(userId)` on the selection `sel`: every entry with that id goes, the others stay in order. */
  function RemoveSelection(sel: seq<ApproverSelection>, userId: string): (r: seq<ApproverSelection>)
    ensures IsSubsequence(r, sel)
    ensures forall a :: a in r ==> a in sel && a.id != userId
    ensures forall a :: a in sel && a.id != userId ==> a in r
    ensures forall a :: multiset(r)[a] == if a.id != userId then multiset(sel)[a] else 0
    ensures !HasId(sel, userId) ==> r == sel
    ensures NoDuplicateIds(sel) ==> NoDuplicateIds(r)
  {
    var keep := (a: ApproverSelection) => a.id != userId;
    FilterSpec(keep, sel);
    FilterMultisetAll(keep, sel);
    FilterKeepsAll(keep, sel);
    FilterNoDuplicateIds(keep, sel);
    Filter(keep, sel)
  }

  /** A filter of a selection without repeated ids has no repeated ids. */
  lemma {:induction false} FilterNoDuplicateIds(p: ApproverSelection -> bool, sel: seq<ApproverSelection>)
    ensures NoDuplicateIds(sel) ==> NoDuplicateIds(Filter(p, sel))
  {
    if sel != [] && NoDuplicateIds(sel) {
      var tail := sel[1..];
      assert NoDuplicateIds(tail) by {
        forall i, j | 0 <= i < j < |tail| ensures tail[i].id != tail[j].id {
          assert tail[i] == sel[i + 1] && tail[j] == sel[j + 1];
        }
      }
      FilterNoDuplicateIds(p, tail);
      FilterSpec(p, tail);
      var rest := Filter(p, tail);
      if p(sel[0]) {
        var r := [sel[0]] + rest;
        forall i, j | 0 <= i < j < |r| ensures r[i].id != r[j].id {
          if i == 0 {
            assert r[j] == rest[j - 1] && rest[j - 1] in tail;
            var m :| 0 <= m < |tail| && tail[m] == r[j];
            assert tail[m] == sel[m + 1];
          } else {
            assert r[i] == rest[i - 1] && r[j] == rest[j - 1];
          }
        }
      }
    }
  }

  /** Adding an approver that was not selected and then removing it gives back the selection. */
  lemma RemoveUndoesAdd(sel: seq<ApproverSelection>, available: seq<User>, userId: string)
    requires !HasId(sel, userId)
    ensures RemoveSelection(AddSelection(sel, available, userId), userId) == sel
  {
    var added := AddSelection(sel, available, userId);
    if added != sel {
      var keep := (a: ApproverSelection) => a.id != userId;
      var i :| 0 <= i < |available| && available[i].id == userId
        && added == sel + [ApproverSelection(userId, available[i].name, available[i].email)];
      FilterConcat(keep, sel, [ApproverSelection(userId, available[i].name, available[i].email)]);
      FilterKeepsAll(keep, sel);
    }
  }

  /** The form fields the page edits, each starting as the empty string. */
  const FormFields: seq<string> := [
    "description", "urlAndEnv", "scopeAndReason", "impactAnalysis", "riskRating", "riskFactor",
    "riskMitigationWithRollbackPlan", "downTime", "plannedMaintenanceWindow", "typeOfRequest",
    "preChecks", "postChecks"]

  /** The fields whose inputs carry the `required` attribute; the two selects do not. */
  const RequiredFields: seq<string> := [
    "description", "urlAndEnv", "scopeAndReason", "impactAnalysis", "riskFactor",
    "riskMitigationWithRollbackPlan", "downTime", "plannedMaintenanceWindow", "preChecks", "postChecks"]

  /** The browser's constraint validation lets the form submit only when no required field is empty. */
  predicate RequiredFilled(form: map<string, string>)
  {
    forall f :: f in RequiredFields ==> f in form && form[f] != ""
  }

  function InitialForm(): (form: map<string, string>)
    ensures forall f :: f in FormFields ==> f in form && form[f] == ""
  {
    map f | f in FormFields :: ""
  }

  /** A submission that has started: whether it saves a draft, and how many approvers
      were selected when it was started (the count its confirmation reports). */
  datatype PendingSubmit = PendingSubmit(saveAsDraft: bool, notified: nat)

  datatype SubmitOutcome = SavedAsDraft | SubmittedForApproval(notified: nat)

  class CreateChangeRequestPage {
    const users: seq<User>
    var isSubmitting: bool
    var selectedApprovers: seq<ApproverSelection>
    var formData: map<string, string>

    /** The selection never repeats an id and holds only available approvers; every form field is present. */
    ghost predicate Valid()
      reads this
    {
      && NoDuplicateIds(selectedApprovers)
      && (forall a :: a in selectedApprovers ==> exists u :: u in AvailableApprovers(users) && a == SelectionOf(u))
      && (forall f :: f in FormFields ==> f in formData)
    }

    constructor (users: seq<User>)
      ensures Valid()
      ensures this.users == users && !isSubmitting && selectedApprovers == [] && formData == InitialForm()
    {
      this.users := users;
      isSubmitting := false;
      selectedApprovers := [];
      formData := InitialForm();
    }

    /** `handleInputChange(field, value)`: only the named field changes. */
    method HandleInputChange(field: string, value: string)
      requires Valid()
      modifies this
      ensures Valid()
      ensures formData == old(formData)[field := value]
      ensures field in formData && formData[field] == value
      ensures forall g :: g in old(formData) && g != field ==> g in formData && formData[g] == old(formData)[g]
      ensures selectedApprovers == old(selectedApprovers) && isSubmitting == old(isSubmitting)
    {
      formData := formData[field := value];
    }

    method AddApprover(userId: string)
      requires Valid()
      modifies this
      ensures Valid()
      ensures selectedApprovers == AddSelection(old(selectedApprovers), AvailableApprovers(users), userId)
      ensures formData == old(formData) && isSubmitting == old(isSubmitting)
    {
      var available := AvailableApprovers(users);
      var user := Find((u: User) => u.id == userId, available);
      if user.Some? && Find((a: ApproverSelection) => a.id == userId, selectedApprovers).None? {
        selectedApprovers := selectedApprovers + [ApproverSelection(user.value.id, user.value.name, user.value.email)];
        assert user.value in available;
      }
    }

    method RemoveApprover(userId: string)
      requires Valid()
      modifies this
      ensures Valid()
      ensures selectedApprovers == RemoveSelection(old(selectedApprovers), userId)
      ensures formData == old(formData) && isSubmitting == old(isSubmitting)
    {
      selectedApprovers := Filter((a: ApproverSelection) => a.id != userId, selectedApprovers);
      assert selectedApprovers == RemoveSelection(old(selectedApprovers), userId);
    }

    /** 'Submit for Approval' is disabled while submitting or while no approver is selected. */
    function SubmitDisabled(): bool
      reads this
    {
      isSubmitting || |selectedApprovers| == 0
    }

    /** 'Save as Draft' is disabled only while submitting. */
    function DraftDisabled(): bool
      reads this
    {
      isSubmitting
    }

    /** The first half of `handleSubmit`, before the simulated request: mark the page as submitting. */
    method StartSubmit(saveAsDraft: bool) returns (p: PendingSubmit)
      requires Valid()
      modifies this
      ensures Valid()
      ensures isSubmitting && SubmitDisabled() && DraftDisabled()
      ensures p == PendingSubmit(saveAsDraft, |old(selectedApprovers)|)
      ensures !saveAsDraft && !old(SubmitDisabled()) ==> p.notified >= 1
      ensures selectedApprovers == old(selectedApprovers) && formData == old(formData)
    {
      p := PendingSubmit(saveAsDraft, |selectedApprovers|);
      isSubmitting := true;
    }

    /** A press of 'Submit for Approval' (or Enter in a field). The button is disabled while
        submitting or while no approver is picked, and the browser blocks the `submit` event
        while a required field is empty; otherwise `onSubmit` runs `handleSubmit(false)`. */
    method PressSubmitForApproval() returns (p: Option<PendingSubmit>)
      requires Valid()
      modifies this
      ensures Valid()
      ensures p.Some? <==> !old(SubmitDisabled()) && RequiredFilled(old(formData))
      ensures p.None? ==> isSubmitting == old(isSubmitting)
      ensures p.Some? ==> p.value == PendingSubmit(false, |old(selectedApprovers)|) && p.value.notified >= 1 && isSubmitting
      ensures selectedApprovers == old(selectedApprovers) && formData == old(formData)
    {
      if SubmitDisabled() || !RequiredFilled(formData) {
        p := None;
      } else {
        var started := StartSubmit(false);
        p := Some(started);
      }
    }

    /** A press of 'Save as Draft': a plain button, so no field needs to be filled;
        it is disabled only while submitting. */
    method PressSaveAsDraft() returns (p: Option<PendingSubmit>)
      requires Valid()
      modifies this
      ensures Valid()
      ensures p.Some? <==> !old(DraftDisabled())
      ensures p.None? ==> isSubmitting == old(isSubmitting)
      ensures p.Some? ==> p.value == PendingSubmit(true, |old(selectedApprovers)|) && isSubmitting
      ensures selectedApprovers == old(selectedApprovers) && formData == old(formData)
    {
      if DraftDisabled() {
        p := None;
      } else {
        var started := StartSubmit(true);
        p := Some(started);
      }
    }

    /** The second half of `handleSubmit`, after the simulated request: report and clear the flag. */
    method FinishSubmit(p: PendingSubmit) returns (outcome: SubmitOutcome)
      requires Valid()
      modifies this
      ensures Valid()
      ensures !isSubmitting && !DraftDisabled()
      ensures outcome == if p.saveAsDraft then SavedAsDraft else SubmittedForApproval(p.notified)
      ensures selectedApprovers == old(selectedApprovers) && formData == old(formData)
    {
      outcome := if p.saveAsDraft then SavedAsDraft else SubmittedForApproval(p.notified);
      isSubmitting := false;
    }
  }

  /** The fresh form cannot be submitted for approval: every required field starts empty. */
  lemma InitialFormNotSubmittable()
    ensures !RequiredFilled(InitialForm())
  {
    assert "description" in RequiredFields;
  }

  /** Whenever 'Submit for Approval' is enabled, so is 'Save as Draft'. */
  lemma SubmitEnabledImpliesDraftEnabled(page: CreateChangeRequestPage)
    ensures !page.SubmitDisabled() ==> !page.DraftDisabled()
  {
  }

  /** The available approvers among four users of which only the middle two are Approvers. */
  lemma AvailableOfFour(a: User, b: User, c: User, d: User)
    requires a.role != ApproverRole && b.role == ApproverRole && c.role == ApproverRole && d.role != ApproverRole
    ensures AvailableApprovers([a, b, c, d]) == [b, c]
  {
    FilterFour((u: User) => u.role == ApproverRole, a, b, c, d);
  }

  /** On the fixture the available approvers are exactly Pravin G and Aniket H. */
  lemma FixtureAvailableApprovers()
    ensures AvailableApprovers(MockData.MockUsers) == [MockData.MockUsers[1], MockData.MockUsers[2]]
  {
    var s := MockData.MockUsers;
    assert s == [s[0], s[1], s[2], s[3]];
    AvailableOfFour(s[0], s[1], s[2], s[3]);
  }
}
