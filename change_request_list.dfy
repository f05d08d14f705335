/**
  The change-request list page: a case-insensitive search on the request id and the
  description, combined with a status filter and a risk filter, each of which may be 'All'.
 */
module ChangeRequestList {
  import opened ChangeRequestTypes
  import opened Sequences
  import opened Text
  import MockData

  /** A filter choice: 'All', or one particular value. */
  datatype Choice<T> = All | Only(value: T)

  predicate Admits<T(==)>(c: Choice<T>, x: T)
  {
    c.All? || c.value == x
  }

  /** The page's three filter inputs. */
  datatype ListFilters = ListFilters(
    searchQuery: string,
    statusFilter: Choice<ApprovalStatus>,
    riskFilter: Choice<RiskRating>)

  /** The initial state, and what 'Clear Filters' sets all three inputs back to. */
  const Cleared: ListFilters := ListFilters("", All, All)

  /** The status and risk buttons, in the order the page shows them. */
  const StatusChoices: seq<Choice<ApprovalStatus>> := [All, Only(Draft), Only(Pending), Only(Approved), Only(Rejected)]
  const RiskChoices: seq<Choice<RiskRating>> := [All, Only(Critical), Only(High), Only(Medium), Only(Low)]

  predicate MatchesSearch(cr: ChangeRequest, query: string)
  {
    Contains(Lower(cr.requestId), Lower(query)) || Contains(Lower(cr.description), Lower(query))
  }

  predicate Keeps(f: ListFilters, cr: ChangeRequest)
  {
    MatchesSearch(cr, f.searchQuery) && Admits(f.statusFilter, cr.status) && Admits(f.riskFilter, cr.riskRating)
  }

  /** `filteredCRs`: the change requests the page lists for the filter inputs `f`. */
  function FilteredCRs(crs: seq<ChangeRequest>, f: ListFilters): (r: seq<ChangeRequest>)
    ensures IsSubsequence(r, crs) && |r| <= |crs|
    ensures forall cr :: cr in r ==>
      cr in crs
      && (Contains(Lower(cr.requestId), Lower(f.searchQuery)) || Contains(Lower(cr.description), Lower(f.searchQuery)))
      && (f.statusFilter.All? || cr.status == f.statusFilter.value)
      && (f.riskFilter.All? || cr.riskRating == f.riskFilter.value)
    ensures forall cr ::
      (cr in crs
       && (Contains(Lower(cr.requestId), Lower(f.searchQuery)) || Contains(Lower(cr.description), Lower(f.searchQuery)))
       && (f.statusFilter.All? || cr.status == f.statusFilter.value)
       && (f.riskFilter.All? || cr.riskRating == f.riskFilter.value))
      ==> cr in r
  {
    var keep := (cr: ChangeRequest) => Keeps(f, cr);
    FilterSpec(keep, crs);
    Filter(keep, crs)
  }

  /** Every occurrence of a kept change request is listed, and no occurrence of any other. */
  lemma FilteredCRsMultiset(crs: seq<ChangeRequest>, f: ListFilters, cr: ChangeRequest)
    ensures multiset(FilteredCRs(crs, f))[cr] == if Keeps(f, cr) then multiset(crs)[cr] else 0
  {
    FilterMultiset(cr => Keeps(f, cr), crs, cr);
  }

  /** With the cleared inputs every change request is listed, in its original order. */
  lemma ClearedListsAll(crs: seq<ChangeRequest>)
    ensures FilteredCRs(crs, Cleared) == crs
  {
    forall i | 0 <= i < |crs| ensures Keeps(Cleared, crs[i]) {
      assert Lower("") == "";
      ContainsEmpty(Lower(crs[i].requestId));
    }
    FilterKeepsAll(cr => Keeps(Cleared, cr), crs);
  }

  /** The search ignores letter case: queries that differ only in case list the same change requests. */
  lemma SearchIgnoresCase(crs: seq<ChangeRequest>, f: ListFilters, query: string)
    requires EqualIgnoringCase(f.searchQuery, query)
    ensures FilteredCRs(crs, f) == FilteredCRs(crs, f.(searchQuery := query))
  {
    LowerEqualIgnoringCase(f.searchQuery, query);
    var g := f.(searchQuery := query);
    FilterExtensional(cr => Keeps(f, cr), cr => Keeps(g, cr), crs);
  }

  /** Filtering the listed change requests again with the same inputs lists the same change requests. */
  lemma FilterTwiceSame(crs: seq<ChangeRequest>, f: ListFilters)
    ensures FilteredCRs(FilteredCRs(crs, f), f) == FilteredCRs(crs, f)
  {
    FilterIdempotent(cr => Keeps(f, cr), crs);
  }

  /** Each status filter and each risk filter appears exactly once among the page's buttons. */
  lemma ChoicesComplete()
    ensures forall c: Choice<ApprovalStatus> :: c in StatusChoices
    ensures forall c: Choice<RiskRating> :: c in RiskChoices
    ensures forall i, j :: 0 <= i < j < |StatusChoices| ==> StatusChoices[i] != StatusChoices[j]
    ensures forall i, j :: 0 <= i < j < |RiskChoices| ==> RiskChoices[i] != RiskChoices[j]
  {
    forall c: Choice<ApprovalStatus> ensures c in StatusChoices {
      match c
      case All => assert StatusChoices[0] == c;
      case Only(Draft) => assert StatusChoices[1] == c;
      case Only(Pending) => assert StatusChoices[2] == c;
      case Only(Approved) => assert StatusChoices[3] == c;
      case Only(Rejected) => assert StatusChoices[4] == c;
    }
    forall c: Choice<RiskRating> ensures c in RiskChoices {
      match c
      case All => assert RiskChoices[0] == c;
      case Only(Critical) => assert RiskChoices[1] == c;
      case Only(High) => assert RiskChoices[2] == c;
      case Only(Medium) => assert RiskChoices[3] == c;
      case Only(Low) => assert RiskChoices[4] == c;
    }
  }

  /** On the fixture, the status filter Approved lists CR002 and CR001, in that order. */
  lemma FixtureApprovedFilter()
    ensures FilteredCRs(MockData.MockChangeRequests, ListFilters("", Only(Approved), All))
      == [MockData.CR002, MockData.CR001]
  {
    var f := ListFilters("", Only(Approved), All);
    var keep := (cr: ChangeRequest) => Keeps(f, cr);
    var a, b, c := MockData.CR003, MockData.CR002, MockData.CR001;
    assert Lower("") == "";
    ContainsEmpty(Lower(b.requestId));
    ContainsEmpty(Lower(c.requestId));
    assert !keep(a) && keep(b) && keep(c);
    FilterThree(keep, a, b, c);
  }
}
