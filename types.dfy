/**
  The domain types of the change-request application: closed string enumerations become
  datatypes (each with the text the application uses for it), and the records become
  datatypes with one field per property. Optional properties are `Option`s.
 */
module ChangeRequestTypes {
  import opened Wrappers

  datatype RiskRating = Critical | High | Medium | Low
  {
    function Name(): string
    {
      match this
      case Critical => "Critical"
      case High => "High"
      case Medium => "Medium"
      case Low => "Low"
    }
  }

  datatype RequestType = Mandatory | Optional | Emergency
  {
    function Name(): string
    {
      match this
      case Mandatory => "Mandatory"
      case Optional => "Optional"
      case Emergency => "Emergency"
    }
  }

  datatype ApprovalStatus = Draft | Pending | Approved | Rejected
  {
    function Name(): string
    {
      match this
      case Draft => "Draft"
      case Pending => "Pending"
      case Approved => "Approved"
      case Rejected => "Rejected"
    }
  }

  /** The role of a user account: 'Admin', 'Approver' or 'Requester'. */
  datatype UserRole = AdminRole | ApproverRole | RequesterRole
  {
    function Name(): string
    {
      match this
      case AdminRole => "Admin"
      case ApproverRole => "Approver"
      case RequesterRole => "Requester"
    }
  }

  /** The rating a string stands for, if it is one of the four rating names. */
  function ParseRiskRating(t: string): (r: Option<RiskRating>)
    ensures r.Some? ==> r.value.Name() == t
    ensures forall x: RiskRating :: x.Name() == t ==> r == Some(x)
  {
    if t == "Critical" then Some(Critical)
    else if t == "High" then Some(High)
    else if t == "Medium" then Some(Medium)
    else if t == "Low" then Some(Low)
    else None
  }

  /** The request type a string stands for, if it is one of the three type names. */
  function ParseRequestType(t: string): (r: Option<RequestType>)
    ensures r.Some? ==> r.value.Name() == t
    ensures forall x: RequestType :: x.Name() == t ==> r == Some(x)
  {
    if t == "Mandatory" then Some(Mandatory)
    else if t == "Optional" then Some(Optional)
    else if t == "Emergency" then Some(Emergency)
    else None
  }

  /** The status a string stands for, if it is one of the four status names. */
  function ParseApprovalStatus(t: string): (r: Option<ApprovalStatus>)
    ensures r.Some? ==> r.value.Name() == t
    ensures forall x: ApprovalStatus :: x.Name() == t ==> r == Some(x)
  {
    if t == "Draft" then Some(Draft)
    else if t == "Pending" then Some(Pending)
    else if t == "Approved" then Some(Approved)
    else if t == "Rejected" then Some(Rejected)
    else None
  }

  /** The role a string stands for, if it is one of the three role names. */
  function ParseUserRole(t: string): (r: Option<UserRole>)
    ensures r.Some? ==> r.value.Name() == t
    ensures forall x: UserRole :: x.Name() == t ==> r == Some(x)
  {
    if t == "Admin" then Some(AdminRole)
    else if t == "Approver" then Some(ApproverRole)
    else if t == "Requester" then Some(RequesterRole)
    else None
  }

  /** Every value of each enumeration, in declaration order. */
  const RiskRatings: seq<RiskRating> := [Critical, High, Medium, Low]
  const RequestTypes: seq<RequestType> := [Mandatory, Optional, Emergency]
  const ApprovalStatuses: seq<ApprovalStatus> := [Draft, Pending, Approved, Rejected]
  const UserRoles: seq<UserRole> := [AdminRole, ApproverRole, RequesterRole]

  /** Distinct positions hold values with distinct names, hence distinct values. */
  predicate DistinctNames<T>(s: seq<T>, name: T -> string)
  {
    forall i, j :: 0 <= i < j < |s| ==> name(s[i]) != name(s[j])
  }

  /** The enumerations are closed: each has exactly the listed values, four statuses, four
      ratings, three request types and three roles, all with distinct names. */
  lemma EnumerationsAreClosed()
    ensures forall x: ApprovalStatus :: x in ApprovalStatuses
    ensures forall x: RiskRating :: x in RiskRatings
    ensures forall x: RequestType :: x in RequestTypes
    ensures forall x: UserRole :: x in UserRoles
    ensures |ApprovalStatuses| == 4 && DistinctNames(ApprovalStatuses, (x: ApprovalStatus) => x.Name())
    ensures |RiskRatings| == 4 && DistinctNames(RiskRatings, (x: RiskRating) => x.Name())
    ensures |RequestTypes| == 3 && DistinctNames(RequestTypes, (x: RequestType) => x.Name())
    ensures |UserRoles| == 3 && DistinctNames(UserRoles, (x: UserRole) => x.Name())
  {
    forall x: ApprovalStatus ensures x in ApprovalStatuses {
      match x
      case Draft => assert ApprovalStatuses[0] == x;
      case Pending => assert ApprovalStatuses[1] == x;
      case Approved => assert ApprovalStatuses[2] == x;
      case Rejected => assert ApprovalStatuses[3] == x;
    }
    forall x: RiskRating ensures x in RiskRatings {
      match x
      case Critical => assert RiskRatings[0] == x;
      case High => assert RiskRatings[1] == x;
      case Medium => assert RiskRatings[2] == x;
      case Low => assert RiskRatings[3] == x;
    }
    forall x: RequestType ensures x in RequestTypes {
      match x
      case Mandatory => assert RequestTypes[0] == x;
      case Optional => assert RequestTypes[1] == x;
      case Emergency => assert RequestTypes[2] == x;
    }
    forall x: UserRole ensures x in UserRoles {
      match x
      case AdminRole => assert UserRoles[0] == x;
      case ApproverRole => assert UserRoles[1] == x;
      case RequesterRole => assert UserRoles[2] == x;
    }
  }

  /** Timestamps are modelled as integers whose order is the order in time. */
  type Timestamp = int

  /** One approver's entry on a change request. Its role is free text ('Technical Lead'),
      unlike a user account's role; `approvedAt` and `comments` may be absent. */
  datatype Approver = Approver(
    id: string,
    name: string,
    email: string,
    role: string,
    status: ApprovalStatus,
    approvedAt: Option<string>,
    comments: Option<string>)

  datatype ChangeRequest = ChangeRequest(
    id: string,
    requestId: string,
    description: string,
    urlAndEnv: string,
    scopeAndReason: string,
    impactAnalysis: string,
    riskRating: RiskRating,
    riskFactor: string,
    riskMitigationWithRollbackPlan: string,
    downTime: string,
    plannedMaintenanceWindow: string,
    typeOfRequest: RequestType,
    preChecks: string,
    postChecks: string,
    approvers: seq<Approver>,
    status: ApprovalStatus,
    createdBy: string,
    createdAt: string,
    updatedAt: Timestamp)

  datatype User = User(
    id: string,
    name: string,
    email: string,
    role: UserRole,
    createdAt: string)
}
