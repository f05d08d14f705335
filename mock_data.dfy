/**
  The application's fixture: the two shared approver entries, the three change requests
  and the four user accounts, transcribed as constants. Timestamps `updatedAt` are written
  as the digits YYYYMMDDhhmm of the UTC time, which orders them as time does.
 */
module MockData {
  import opened Wrappers
  import opened ChangeRequestTypes

  const MockApprovers: seq<Approver> := [
    Approver.Approver("1", "Pravin G", "pravin.g@company.com", "Technical Lead", Approved,
      Some("2025-12-01T10:30:00Z"), Some("Looks good. Approved.")),
    Approver.Approver("2", "Aniket H", "aniket.h@company.com", "Project Manager", Pending,
      None, None)
  ]

  const CR003: ChangeRequest := ChangeRequest(
    "1",
    "CR003",
    "Domain Migration from amla.io to znodecorp.com",
    "https://admin-klrt-npr.amla.io/",
    "To migrate the domain from amla.io domain to znodecorp.com",
    "1) Expected user-visible downtime of up to 45 minutes within the approved maintenance window.\n"
      + "2) During downtime, the NP admin portal will be unavailable; any users attempting to access the old URL may receive HTTP errors or redirects.\n"
      + "3) Users must start using the new znodecorp.com URLs after the change; bookmarks and integrations pointing to amla.io may need to be updated.",
    Critical,
    "1) Hardcoded URLs or integrations still pointing to the old amla.io domain.\n"
      + "2) Cached DNS entries / bookmarks for the old domain.\n"
      + "3) SSL certificate misconfiguration on the new domain.",
    "1) Pre-migration scan of application configs and known integrations for references to amla.io.\n"
      + "2) Validate SSL certificate and DNS for znodecorp.com in non-prod before cutover.\n"
      + "Rollback:\n"
      + "If critical issues are detected during the window, revert DNS to the previous amla.io endpoint and re-enable the old site.\n"
      + "Notify stakeholders and schedule a follow-up migration after fixes are applied.",
    "45 Mins",
    "08-Dec-2025 (03:00 PM to 04:00 PM IST and 03:30 AM – 04:30 AM CST)",
    Mandatory,
    "Sanity test, Validate SSL certificate",
    "Proper sanity on new URL's and new domain, DNS pointing of new URL's",
    MockApprovers,
    Pending,
    "John Doe",
    "2025-12-01T09:00:00Z",
    202512011030)

  const CR002: ChangeRequest := ChangeRequest(
    "2",
    "CR002",
    "Database Schema Update for User Authentication Module",
    "https://api-prod.company.com/",
    "Add new columns for multi-factor authentication support",
    "Minimal impact - backward compatible changes only",
    Medium,
    "Potential query performance impact during migration",
    "Backup database before migration. Rollback script prepared.",
    "15 Mins",
    "10-Dec-2025 (02:00 AM to 02:15 AM IST)",
    Optional,
    "Database backup verification",
    "API health check, Authentication flow validation",
    [Approver.Approver("3", "Sarah M", "sarah.m@company.com", "DBA Lead", Approved,
       Some("2025-11-28T14:00:00Z"), None)],
    Approved,
    "Mike S",
    "2025-11-25T11:00:00Z",
    202511281400)

  const CR001: ChangeRequest := ChangeRequest(
    "3",
    "CR001",
    "Emergency Security Patch Deployment",
    "https://app.company.com/",
    "Critical security vulnerability fix",
    "Brief service interruption during deployment",
    High,
    "Potential compatibility issues with existing integrations",
    "Blue-green deployment with instant rollback capability",
    "5 Mins",
    "05-Dec-2025 (12:00 AM to 12:05 AM IST)",
    Emergency,
    "Security scan, Penetration test",
    "Security validation, Smoke tests",
    [Approver.Approver("1", "Pravin G", "pravin.g@company.com", "Technical Lead", Approved,
       Some("2025-12-02T08:00:00Z"), None),
     Approver.Approver("2", "Aniket H", "aniket.h@company.com", "Project Manager", Approved,
       Some("2025-12-02T08:30:00Z"), None)],
    Approved,
    "Security Team",
    "2025-12-02T07:00:00Z",
    202512020830)

  const MockChangeRequests: seq<ChangeRequest> := [CR003, CR002, CR001]

  const MockUsers: seq<User> := [
    User("1", "John Doe", "john.doe@company.com", RequesterRole, "2025-01-15T10:00:00Z"),
    User("2", "Pravin G", "pravin.g@company.com", ApproverRole, "2025-01-10T09:00:00Z"),
    User("3", "Aniket H", "aniket.h@company.com", ApproverRole, "2025-01-10T09:00:00Z"),
    User("4", "Admin User", "admin@company.com", AdminRole, "2025-01-01T08:00:00Z")
  ]

  /** No two fixture change requests share an `id` or a `requestId`. */
  lemma FixtureIdsDistinct()
    ensures forall i, j :: 0 <= i < j < |MockChangeRequests| ==>
      MockChangeRequests[i].id != MockChangeRequests[j].id
      && MockChangeRequests[i].requestId != MockChangeRequests[j].requestId
  {
  }

  /** Every fixture change request with status Approved has only Approved approvers. */
  lemma FixtureApprovedHaveAllApproved()
    ensures forall i :: 0 <= i < |MockChangeRequests| && MockChangeRequests[i].status == Approved ==>
      forall k :: 0 <= k < |MockChangeRequests[i].approvers| ==> MockChangeRequests[i].approvers[k].status == Approved
  {
  }
}
