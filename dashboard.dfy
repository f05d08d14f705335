/**
  The dashboard: counts of change requests by status and by risk, and the five most
  recently updated change requests, taken from a copy sorted newest first.
 */
module Dashboard {
  import opened ChangeRequestTypes
  import opened Sequences
  import MockData

  function TotalCRs(crs: seq<ChangeRequest>): nat
  {
    |crs|
  }

  predicate IsPending(cr: ChangeRequest) { cr.status == Pending }
  predicate IsApproved(cr: ChangeRequest) { cr.status == Approved }
  predicate IsCritical(cr: ChangeRequest) { cr.riskRating == Critical }

  /** `pendingCRs`: the number of change requests with status Pending. */
  function PendingCRs(crs: seq<ChangeRequest>): (n: nat)
    ensures n == |set i | 0 <= i < |crs| && crs[i].status == Pending|
  {
    FilterLengthCountsIndices(IsPending, crs);
    assert IndicesWhere(IsPending, crs) == set i | 0 <= i < |crs| && crs[i].status == Pending;
    |Filter(IsPending, crs)|
  }

  /** `approvedCRs`: the number of change requests with status Approved. */
  function ApprovedCRs(crs: seq<ChangeRequest>): (n: nat)
    ensures n == |set i | 0 <= i < |crs| && crs[i].status == Approved|
  {
    FilterLengthCountsIndices(IsApproved, crs);
    assert IndicesWhere(IsApproved, crs) == set i | 0 <= i < |crs| && crs[i].status == Approved;
    |Filter(IsApproved, crs)|
  }

  /** `criticalCRs`: the number of change requests whose risk rating is Critical. */
  function CriticalCRs(crs: seq<ChangeRequest>): (n: nat)
    ensures n == |set i | 0 <= i < |crs| && crs[i].riskRating == Critical|
  {
    FilterLengthCountsIndices(IsCritical, crs);
    assert IndicesWhere(IsCritical, crs) == set i | 0 <= i < |crs| && crs[i].riskRating == Critical;
    |Filter(IsCritical, crs)|
  }

  /** Pending and approved change requests are disjoint, so together they are at most the total;
      the critical ones are at most the total too. */
  lemma CountsBounded(crs: seq<ChangeRequest>)
    ensures PendingCRs(crs) + ApprovedCRs(crs) <= TotalCRs(crs)
    ensures CriticalCRs(crs) <= TotalCRs(crs)
  {
    FilterDisjointLength(IsPending, IsApproved, crs);
  }

  /** Newest first: `updatedAt` never increases along the sequence. */
  predicate NewestFirst(s: seq<ChangeRequest>)
  {
    forall i, j :: 0 <= i < j < |s| ==> s[i].updatedAt >= s[j].updatedAt
  }

  /** An element at least as new as the head of a newest-first sequence can go in front of it. */
  lemma PrependNewestFirst(y: ChangeRequest, s: seq<ChangeRequest>)
    requires NewestFirst(s)
    requires s == [] || s[0].updatedAt <= y.updatedAt
    ensures NewestFirst([y] + s)
  {
    var r := [y] + s;
    forall i, j | 0 <= i < j < |r| ensures r[i].updatedAt >= r[j].updatedAt {
      if i == 0 && j > 1 {
        assert r[j] == s[j - 1] && s[0].updatedAt >= s[j - 1].updatedAt;
      }
    }
  }

  /** Puts `x` into `s` ahead of the first element that is not newer than it, so that among
      equal timestamps `x` comes first. */
  function InsertNewestFirst(x: ChangeRequest, s: seq<ChangeRequest>): (r: seq<ChangeRequest>)
    ensures |r| == |s| + 1
  {
    if s == [] || s[0].updatedAt <= x.updatedAt then [x] + s
    else [s[0]] + InsertNewestFirst(x, s[1..])
  }

  /** Inserting into a newest-first sequence keeps it newest first and adds exactly `x`. */
  lemma {:induction false} InsertSpec(x: ChangeRequest, s: seq<ChangeRequest>)
    requires NewestFirst(s)
    ensures NewestFirst(InsertNewestFirst(x, s))
    ensures multiset(InsertNewestFirst(x, s)) == multiset(s) + multiset{x}
    ensures InsertNewestFirst(x, s)[0] == x || (s != [] && InsertNewestFirst(x, s)[0] == s[0])
    decreases |s|
  {
    if s == [] || s[0].updatedAt <= x.updatedAt {
      PrependNewestFirst(x, s);
    } else {
      var tail := s[1..];
      assert NewestFirst(tail) by {
        forall i, j | 0 <= i < j < |tail| ensures tail[i].updatedAt >= tail[j].updatedAt {
          assert tail[i] == s[i + 1] && tail[j] == s[j + 1];
        }
      }
      InsertSpec(x, tail);
      var rest := InsertNewestFirst(x, tail);
      PrependNewestFirst(s[0], rest);
      assert s == [s[0]] + tail;
    }
  }

  /** The comparator `new Date(b.updatedAt) - new Date(a.updatedAt)`: an insertion sort, newest first. */
  function SortNewestFirst(s: seq<ChangeRequest>): (r: seq<ChangeRequest>)
    ensures |r| == |s|
  {
    if s == [] then [] else InsertNewestFirst(s[0], SortNewestFirst(s[1..]))
  }

  /** The sorted copy is newest first and a permutation of the input. */
  lemma {:induction false} SortSpec(s: seq<ChangeRequest>)
    ensures NewestFirst(SortNewestFirst(s))
    ensures multiset(SortNewestFirst(s)) == multiset(s)
    decreases |s|
  {
    if s != [] {
      SortSpec(s[1..]);
      InsertSpec(s[0], SortNewestFirst(s[1..]));
      assert s == [s[0]] + s[1..];
    }
  }

  function Min(a: int, b: int): int
  {
    if a <= b then a else b
  }

  /** `recentCRs`: the sorted copy cut to its first five elements. */
  function RecentCRs(crs: seq<ChangeRequest>): (r: seq<ChangeRequest>)
    ensures |r| == Min(5, |crs|)
    ensures NewestFirst(r)
    ensures multiset(r) <= multiset(crs)
    ensures |crs| <= 5 ==> multiset(r) == multiset(crs)
    ensures forall i, c :: 0 <= i < |r| && c in multiset(crs) - multiset(r) ==> c.updatedAt <= r[i].updatedAt
  {
    var sorted := SortNewestFirst(crs);
    SortSpec(crs);
    NewestPrefix(sorted, Min(5, |sorted|));
    sorted[..Min(5, |sorted|)]
  }

  /** The first `k` elements of a newest-first sequence are at least as new as every other element. */
  lemma NewestPrefix(sorted: seq<ChangeRequest>, k: nat)
    requires NewestFirst(sorted) && k <= |sorted|
    ensures NewestFirst(sorted[..k])
    ensures k == |sorted| ==> sorted[..k] == sorted
    ensures multiset(sorted[..k]) <= multiset(sorted)
    ensures forall i, c :: 0 <= i < k && c in multiset(sorted) - multiset(sorted[..k]) ==> c.updatedAt <= sorted[i].updatedAt
  {
    assert sorted == sorted[..k] + sorted[k..];
    forall i, c | 0 <= i < k && c in multiset(sorted) - multiset(sorted[..k]) ensures c.updatedAt <= sorted[i].updatedAt {
      assert c in multiset(sorted[k..]);
      var m :| 0 <= m < |sorted[k..]| && sorted[k..][m] == c;
      assert sorted[k + m] == c;
    }
  }

  /** On the fixture there are 3 change requests: 1 pending, 2 approved, 1 critical. */
  lemma FixtureStatistics()
    ensures TotalCRs(MockData.MockChangeRequests) == 3
    ensures PendingCRs(MockData.MockChangeRequests) == 1
    ensures ApprovedCRs(MockData.MockChangeRequests) == 2
    ensures CriticalCRs(MockData.MockChangeRequests) == 1
  {
    var a, b, c := MockData.CR003, MockData.CR002, MockData.CR001;
    assert a.status == Pending && b.status == Approved && c.status == Approved;
    assert a.riskRating == Critical && b.riskRating == Medium && c.riskRating == High;
    FilterThree(IsPending, a, b, c);
    FilterThree(IsApproved, a, b, c);
    FilterThree(IsCritical, a, b, c);
  }

  /** `x` goes in front when the sequence is empty or its head is not newer. */
  lemma InsertAtFront(x: ChangeRequest, s: seq<ChangeRequest>)
    requires s == [] || s[0].updatedAt <= x.updatedAt
    ensures InsertNewestFirst(x, s) == [x] + s
  {
  }

  /** `x` goes past a head that is strictly newer. */
  lemma InsertPastHead(x: ChangeRequest, s: seq<ChangeRequest>)
    requires s != [] && x.updatedAt < s[0].updatedAt
    ensures InsertNewestFirst(x, s) == [s[0]] + InsertNewestFirst(x, s[1..])
  {
  }

  /** One step of the sort: the head is inserted into the sorted rest. */
  lemma SortCons(x: ChangeRequest, s: seq<ChangeRequest>)
    ensures SortNewestFirst([x] + s) == InsertNewestFirst(x, SortNewestFirst(s))
  {
    assert ([x] + s)[0] == x && ([x] + s)[1..] == s;
  }

  lemma SortOne(c: ChangeRequest)
    ensures SortNewestFirst([c]) == [c]
  {
    assert [c] == [c] + [];
    SortCons(c, []);
    InsertAtFront(c, []);
  }

  /** Sorting two change requests, the newer one last, swaps them. */
  lemma SortTwo(b: ChangeRequest, c: ChangeRequest)
    requires b.updatedAt < c.updatedAt
    ensures SortNewestFirst([b, c]) == [c, b]
  {
    assert [b, c] == [b] + [c];
    SortCons(b, [c]);
    SortOne(c);
    InsertPastHead(b, [c]);
    assert [c][1..] == [];
    InsertAtFront(b, []);
  }

  /** Sorting three change requests whose timestamps satisfy b < a < c gives c, a, b. */
  lemma SortThree(a: ChangeRequest, b: ChangeRequest, c: ChangeRequest)
    requires b.updatedAt < a.updatedAt < c.updatedAt
    ensures SortNewestFirst([a, b, c]) == [c, a, b]
  {
    assert [a, b, c] == [a] + [b, c];
    SortCons(a, [b, c]);
    SortTwo(b, c);
    InsertPastHead(a, [c, b]);
    assert [c, b][1..] == [b];
    InsertAtFront(a, [b]);
  }

  /** Three change requests are all shown, newest first. */
  lemma RecentOfThree(a: ChangeRequest, b: ChangeRequest, c: ChangeRequest)
    requires b.updatedAt < a.updatedAt < c.updatedAt
    ensures RecentCRs([a, b, c]) == [c, a, b]
  {
    SortThree(a, b, c);
    assert [c, a, b][..3] == [c, a, b];
  }

  /** On the fixture the recent list is CR001, CR003, CR002. */
  lemma FixtureRecent()
    ensures RecentCRs(MockData.MockChangeRequests) == [MockData.CR001, MockData.CR003, MockData.CR002]
  {
    RecentOfThree(MockData.CR003, MockData.CR002, MockData.CR001);
  }
}
