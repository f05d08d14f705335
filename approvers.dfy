/**
  The approvers page: the directory of accounts whose role is Approver or Admin, a
  case-insensitive search on name and email, and the 'Add Approver' dialog.
 */
module Approvers {
  import opened ChangeRequestTypes
  import opened Sequences
  import opened Text
  import MockData

  predicate InDirectory(u: User)
  {
    u.role == ApproverRole || u.role == AdminRole
  }

  /** `approvers`: the accounts with role Approver or Admin, in their original order. */
  function Directory(users: seq<User>): (r: seq<User>)
    ensures IsSubsequence(r, users)
    ensures forall u :: u in r ==> u in users && (u.role == ApproverRole || u.role == AdminRole)
    ensures forall u :: u in users && (u.role == ApproverRole || u.role == AdminRole) ==> u in r
    ensures forall u :: multiset(r)[u] == if u.role == ApproverRole || u.role == AdminRole then multiset(users)[u] else 0
  {
    FilterSpec(InDirectory, users);
    FilterMultisetAll(InDirectory, users);
    Filter(InDirectory, users)
  }

  /** Requesters never appear in the directory. */
  lemma NoRequesterInDirectory(users: seq<User>)
    ensures forall i :: 0 <= i < |Directory(users)| ==> Directory(users)[i].role != RequesterRole
  {
    var r := Directory(users);
    forall i | 0 <= i < |r| ensures r[i].role != RequesterRole {
      assert r[i] in r;
    }
  }

  predicate MatchesSearch(u: User, query: string)
  {
    Contains(Lower(u.name), Lower(query)) || Contains(Lower(u.email), Lower(query))
  }

  /** `filteredApprovers`: the accounts of `users` whose lower-cased name or email contains the lower-cased query. */
  function SearchUsers(users: seq<User>, query: string): (r: seq<User>)
    ensures IsSubsequence(r, users)
    ensures forall u :: u in r ==>
      (u in users && (Contains(Lower(u.name), Lower(query)) || Contains(Lower(u.email), Lower(query))))
    ensures forall u ::
      (u in users && (Contains(Lower(u.name), Lower(query)) || Contains(Lower(u.email), Lower(query)))) ==> u in r
    ensures forall u :: multiset(r)[u] == if MatchesSearch(u, query) then multiset(users)[u] else 0
  {
    var matches := (u: User) => MatchesSearch(u, query);
    FilterSpec(matches, users);
    FilterMultisetAll(matches, users);
    Filter(matches, users)
  }

  /** An empty query lists every account. */
  lemma EmptySearchKeepsAll(users: seq<User>)
    ensures SearchUsers(users, "") == users
  {
    assert Lower("") == "";
    forall i | 0 <= i < |users| ensures MatchesSearch(users[i], "") {
      ContainsEmpty(Lower(users[i].name));
    }
    FilterKeepsAll((u: User) => MatchesSearch(u, ""), users);
  }

  /** The search ignores letter case: queries that differ only in case list the same accounts. */
  lemma SearchIgnoresCase(users: seq<User>, q1: string, q2: string)
    requires EqualIgnoringCase(q1, q2)
    ensures SearchUsers(users, q1) == SearchUsers(users, q2)
  {
    LowerEqualIgnoringCase(q1, q2);
    FilterExtensional((u: User) => MatchesSearch(u, q1), (u: User) => MatchesSearch(u, q2), users);
  }

  /** Searching the directory keeps the accounts that are in the directory and match, in
      their original order and with their multiplicity. */
  lemma SearchDirectory(users: seq<User>, query: string)
    ensures IsSubsequence(SearchUsers(Directory(users), query), users)
    ensures forall u :: u in users && InDirectory(u) && MatchesSearch(u, query) ==> u in SearchUsers(Directory(users), query)
    ensures forall u :: (multiset(SearchUsers(Directory(users), query))[u]
      == if InDirectory(u) && MatchesSearch(u, query) then multiset(users)[u] else 0)
  {
    var matches := (u: User) => MatchesSearch(u, query);
    var both := (u: User) => InDirectory(u) && matches(u);
    FilterCompose(InDirectory, matches, both, users);
    FilterSpec(both, users);
    FilterMultisetAll(both, users);
  }

  /** The directory of four accounts of which only the first is outside it. */
  lemma DirectoryOfFour(a: User, b: User, c: User, d: User)
    requires !InDirectory(a) && InDirectory(b) && InDirectory(c) && InDirectory(d)
    ensures Directory([a, b, c, d]) == [b, c, d]
  {
    FilterFour(InDirectory, a, b, c, d);
  }

  /** The fields of the 'Add Approver' dialog. */
  datatype NewUser = NewUser(name: string, email: string, role: string)

  const EmptyNewUser: NewUser := NewUser("", "", "")

  /** The dialog's state: whether it is open, and what has been typed into it. */
  datatype AddDialog = AddDialog(isOpen: bool, newUser: NewUser)

  /** `handleAddUser` accepts only when name, email and role are all filled in. */
  predicate CanAdd(u: NewUser)
  {
    u.name != "" && u.email != "" && u.role != ""
  }

  /** `handleAddUser`: an accepted add closes the dialog and clears the fields; otherwise nothing changes. */
  function AddUserStep(d: AddDialog): AddDialog
  {
    if CanAdd(d.newUser) then AddDialog(false, EmptyNewUser) else d
  }

  /** The step changes the dialog exactly when the add is accepted; it never leaves the
      fields half cleared, and a dialog still open afterwards is one whose add was refused. */
  lemma AddUserStepChanges(d: AddDialog)
    ensures AddUserStep(d) != d <==> CanAdd(d.newUser)
    ensures AddUserStep(d).newUser == d.newUser || AddUserStep(d).newUser == EmptyNewUser
    ensures AddUserStep(d).isOpen ==> AddUserStep(d) == d && !CanAdd(d.newUser)
  {
  }

  /** A second add right after the first changes nothing: the fields are empty by then. */
  lemma AddUserTwiceIsOnce(d: AddDialog)
    ensures AddUserStep(AddUserStep(d)) == AddUserStep(d)
  {
  }

  class ApproversPage {
    const users: seq<User>
    var searchQuery: string
    var isAddDialogOpen: bool
    var newUser: NewUser

    constructor (users: seq<User>)
      ensures this.users == users && searchQuery == "" && !isAddDialogOpen && newUser == EmptyNewUser
    {
      this.users := users;
      searchQuery := "";
      isAddDialogOpen := false;
      newUser := EmptyNewUser;
    }

    function Dialog(): AddDialog
      reads this
    {
      AddDialog(isAddDialogOpen, newUser)
    }

    /** The accounts the page shows as cards: the directory entries that match the query,
        in their original order and with their multiplicity in `users`. */
    function FilteredApprovers(): (r: seq<User>)
      reads this
      ensures IsSubsequence(r, users)
      ensures forall u :: u in r ==> u in users && InDirectory(u) && MatchesSearch(u, searchQuery)
      ensures forall u :: u in users && InDirectory(u) && MatchesSearch(u, searchQuery) ==> u in r
      ensures forall u :: multiset(r)[u] == if InDirectory(u) && MatchesSearch(u, searchQuery) then multiset(users)[u] else 0
    {
      SearchDirectory(users, searchQuery);
      SearchUsers(Directory(users), searchQuery)
    }

    method SetSearchQuery(q: string)
      modifies this
      ensures searchQuery == q && Dialog() == old(Dialog())
    {
      searchQuery := q;
    }

    /** The dialog's open/close control and its 'Cancel' button. */
    method SetDialogOpen(open: bool)
      modifies this
      ensures isAddDialogOpen == open && newUser == old(newUser) && searchQuery == old(searchQuery)
    {
      isAddDialogOpen := open;
    }

    method SetNewUserName(v: string)
      modifies this
      ensures newUser == old(newUser).(name := v)
      ensures isAddDialogOpen == old(isAddDialogOpen) && searchQuery == old(searchQuery)
    {
      newUser := newUser.(name := v);
    }

    method SetNewUserEmail(v: string)
      modifies this
      ensures newUser == old(newUser).(email := v)
      ensures isAddDialogOpen == old(isAddDialogOpen) && searchQuery == old(searchQuery)
    {
      newUser := newUser.(email := v);
    }

    method SetNewUserRole(v: string)
      modifies this
      ensures newUser == old(newUser).(role := v)
      ensures isAddDialogOpen == old(isAddDialogOpen) && searchQuery == old(searchQuery)
    {
      newUser := newUser.(role := v);
    }

    /** `handleAddUser`: reports whether the add was accepted. */
    method HandleAddUser() returns (added: bool)
      modifies this
      ensures added == CanAdd(old(newUser))
      ensures Dialog() == AddUserStep(old(Dialog()))
      ensures searchQuery == old(searchQuery)
    {
      added := newUser.name != "" && newUser.email != "" && newUser.role != "";
      if added {
        isAddDialogOpen := false;
        newUser := NewUser("", "", "");
      }
    }
  }

  /** On the fixture the directory holds Pravin G, Aniket H and Admin User. */
  lemma FixtureDirectory()
    ensures Directory(MockData.MockUsers) == [MockData.MockUsers[1], MockData.MockUsers[2], MockData.MockUsers[3]]
    ensures |Directory(MockData.MockUsers)| == 3
  {
    var s := MockData.MockUsers;
    assert s == [s[0], s[1], s[2], s[3]];
    DirectoryOfFour(s[0], s[1], s[2], s[3]);
  }

  /** The fixture's three directory names give the initials PG, AH and AU. */
  lemma FixtureNameInitials()
    ensures Initials("Pravin G") == "PG" && Initials("Aniket H") == "AH" && Initials("Admin User") == "AU"
  {
    assert "Pravin G" == "Pravin" + " " + "G";
    InitialsOfTwoWords("Pravin", "G");
    assert "Aniket H" == "Aniket" + " " + "H";
    InitialsOfTwoWords("Aniket", "H");
    assert "Admin User" == "Admin" + " " + "User";
    InitialsOfTwoWords("Admin", "User");
  }

  /** The directory cards on the fixture show the initials PG, AH and AU, in that order. */
  lemma FixtureInitials()
    ensures |Directory(MockData.MockUsers)| == 3
    ensures Initials(Directory(MockData.MockUsers)[0].name) == "PG"
    ensures Initials(Directory(MockData.MockUsers)[1].name) == "AH"
    ensures Initials(Directory(MockData.MockUsers)[2].name) == "AU"
  {
    FixtureDirectory();
    FixtureNameInitials();
    var d := Directory(MockData.MockUsers);
    assert d[0].name == "Pravin G" && d[1].name == "Aniket H" && d[2].name == "Admin User";
  }
}
