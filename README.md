# Change-request manager front end, modelled in Dafny

This project models the logic of the change-request (CR) manager front end. The pages work over mock data and hold no persistence. They do the following:

- list CRs with a case-insensitive search and status and risk filters;
- build a new CR's approver selection from the users whose role is Approver;
- show dashboard counts and the five most recently updated CRs;
- list and search the approver directory, and guard the 'Add Approver' dialog;
- derive small values: the header's active link, name initials, a card's "approved/total" ratio and detail link, and the detail page's lookup and actions.

Module layout, one module per source file plus three helpers:

| file | module | models |
|---|---|---|
| wrappers.dfy | `Wrappers` | `Option` |
| sequences.dfy | `Sequences` | JavaScript `filter`, `find` and `filter(...).length` on sequences |
| text.dfy | `Text` | ASCII `toLowerCase`, `includes`, `startsWith`, `split(' ')`/`join`, initials |
| types.dfy | `ChangeRequestTypes` | `src/types/changeRequest.ts` |
| mock_data.dfy | `MockData` | `src/data/mockData.ts` |
| change_request_list.dfy | `ChangeRequestList` | `src/pages/ChangeRequestList.tsx` |
| create_change_request.dfy | `CreateChangeRequest` | `src/pages/CreateChangeRequest.tsx` (a class holding the page state) |
| dashboard.dfy | `Dashboard` | `src/pages/Dashboard.tsx` |
| approvers.dfy | `Approvers` | `src/pages/Approvers.tsx` (pure filters plus a class for the dialog state) |
| header.dfy | `Header` | `src/components/Header.tsx` |
| change_request_card.dfy | `ChangeRequestCard` | `src/components/ChangeRequestCard.tsx` |
| change_request_detail.dfy | `ChangeRequestDetail` | `src/pages/ChangeRequestDetail.tsx` |

Conventions:
- Strings are `seq<char>`. Lower-casing covers the ASCII letters only. A `char` is a whole Unicode scalar value, not a UTF-16 code unit, so string lengths and indexing (as in `Text.Initials`, which takes `n[0]` of each word) agree with JavaScript only on text inside the Basic Multilingual Plane.
- `updatedAt` is an integer timestamp. The fixture writes it as the UTC digits YYYYMMDDhhmm, which order the same way as the ISO strings the source compares through `Date.getTime()`. `createdAt` and `approvedAt` stay strings, because they are only formatted for display.
- On the create page and the approvers page, the React state hooks become class fields (`CreateChangeRequestPage`, `ApproversPage`), and each updater becomes a method that changes those fields and nothing else. On the list page the three filter hooks (`src/pages/ChangeRequestList.tsx:14-16`) are the value `ListFilters`, which the filter takes as input. 'Clear Filters' is the constant `Cleared`, and the setters `setSearchQuery`, `setStatusFilter` and `setRiskFilter` have no method of their own: each only replaces one field of that value.

Two facts about the code shape the model:
- No code recomputes a CR's status from its approvers, and no code checks a submission beyond the browser's `required`-field check. Approve and Reject only show a notice, and a submission only toggles `isSubmitting`.
- An approver's status has the full four-valued status type (`src/types/changeRequest.ts:12`), Draft included, so the model allows Draft there too.

## Model

| member | source | states |
|---|---|---|
| ChangeRequestTypes.EnumerationsAreClosed | src/types/changeRequest.ts:1-5 | Every risk rating, request type, approval status and user role is one of the listed values. There are exactly 4, 3, 4 and 3 of them, and their names are pairwise distinct. |
| ChangeRequestTypes.ParseRiskRating | src/types/changeRequest.ts:1 | A text denotes a risk rating exactly when it is that rating's name. Any other text denotes none. |
| ChangeRequestTypes.ParseRequestType | src/types/changeRequest.ts:3 | A text denotes a request type exactly when it is that type's name. |
| ChangeRequestTypes.ParseApprovalStatus | src/types/changeRequest.ts:5 | A text denotes an approval status (Draft included) exactly when it is that status's name. |
| ChangeRequestTypes.ParseUserRole | src/types/changeRequest.ts:43 | A text denotes a role exactly when it is 'Admin', 'Approver' or 'Requester'. |
| MockData.FixtureIdsDistinct | src/data/mockData.ts:22-99 | No two fixture CRs share an `id` or a `requestId`. |
| MockData.FixtureApprovedHaveAllApproved | src/data/mockData.ts:52-99 | Every fixture CR whose status is Approved has only Approved approvers. |
| Sequences.Filter | src/pages/ChangeRequestList.tsx:19 | The result of `filter` is never longer than its input. |
| Sequences.FilterSpec | src/pages/ChangeRequestList.tsx:19 | `filter` keeps exactly the elements that satisfy the predicate, as an order-preserving subsequence of the input. |
| Sequences.FilterCons | src/pages/ChangeRequestList.tsx:19 | One step of `filter`: the head is kept exactly when it satisfies the predicate, followed by the filter of the rest. |
| Sequences.FilterMultiset | src/pages/ChangeRequestList.tsx:19 | `filter` keeps every occurrence of a satisfying element and no occurrence of any other. |
| Sequences.FilterMultisetAll | src/pages/CreateChangeRequest.tsx:40 | For every element at once: `filter` keeps each occurrence of a satisfying element and no occurrence of any other. |
| Sequences.FilterCompose | src/pages/Approvers.tsx:26-31 | Filtering by one predicate and then by another is filtering once by their conjunction. |
| Sequences.FilterKeepsAll | src/pages/ChangeRequestList.tsx:19 | `filter` returns its input unchanged if and only if every element satisfies the predicate. |
| Sequences.FilterLengthFull | src/components/ChangeRequestCard.tsx:21 | `filter` keeps all the elements, counted by length, if and only if every element satisfies the predicate. |
| Sequences.FilterLengthCountsIndices | src/pages/Dashboard.tsx:11 | `filter(p).length` is the number of positions whose element satisfies `p`. |
| Sequences.FilterDisjointLength | src/pages/Dashboard.tsx:11-12 | Two predicates that never hold together keep at most `length` elements between them. |
| Sequences.FilterConcat | src/pages/CreateChangeRequest.tsx:54 | Filtering a concatenation filters each part separately. |
| Sequences.Find | src/pages/CreateChangeRequest.tsx:47 | `find` returns nothing exactly when no element satisfies the predicate. Otherwise it returns the first element that does. |
| Sequences.FindIsFirst | src/pages/ChangeRequestDetail.tsx:13 | When position `k` is the first to satisfy the predicate, `find` returns the element at `k`. |
| Text.Lower | src/pages/ChangeRequestList.tsx:21 | `toLowerCase` gives the same text up to letter case, of the same length, with no upper-case ASCII letter left. |
| Text.LowerIdempotent | src/pages/ChangeRequestList.tsx:21 | Lower-casing an already lower-cased text changes nothing. |
| Text.LowerEqualIgnoringCase | src/pages/ChangeRequestList.tsx:21-22 | Two texts have the same lower-case form if and only if they differ only in letter case. |
| Text.ContainsIff | src/pages/ChangeRequestList.tsx:21 | `Contains` (the model of `includes`) holds if and only if the pattern occurs at some position of the text. |
| Text.ContainsEmpty | src/pages/Approvers.tsx:28-31 | Every text includes the empty string. |
| Text.Split | src/pages/Approvers.tsx:155 | `split(' ')` yields at least one part. No part holds a space, and joining the parts with spaces gives back the name. |
| Text.SplitJoin | src/pages/Approvers.tsx:155 | Splitting space-free words joined by single spaces gives the words back. |
| Text.InitialsAreWordStarts | src/pages/Approvers.tsx:155 | The initials (`Initials`, the model of `split(' ').map(n => n[0]).join('')`) are exactly the characters that start a word: each one is the first character or follows a space. |
| Text.InitialsOfWords | src/pages/Approvers.tsx:155 | For words joined by single spaces, the initials are one character per word: its first character, in order. |
| Text.InitialsOfTwoWords | src/pages/Approvers.tsx:155 | A first and last name give the two first letters as initials. |
| ChangeRequestList.FilteredCRs | src/pages/ChangeRequestList.tsx:19-26 | A CR is listed if and only if three conditions hold: the lower-cased query occurs in its lower-cased `requestId` or `description`; the status filter is All or equals its status; the risk filter is All or equals its risk. The list is an order-preserving subsequence of the input, so its length is bounded by the input's. |
| ChangeRequestList.FilteredCRsMultiset | src/pages/ChangeRequestList.tsx:19-26 | Each CR that passes is listed as often as it occurs in the input. A CR that fails is not listed. |
| ChangeRequestList.ClearedListsAll | src/pages/ChangeRequestList.tsx:141-145 | After 'Clear Filters' (empty query, both filters All), every CR is listed in its original order. |
| ChangeRequestList.SearchIgnoresCase | src/pages/ChangeRequestList.tsx:21-22 | Two queries that differ only in letter case list the same CRs. |
| ChangeRequestList.FilterTwiceSame | src/pages/ChangeRequestList.tsx:19-26 | Filtering the listed CRs again with the same inputs changes nothing. |
| ChangeRequestList.ChoicesComplete | src/pages/ChangeRequestList.tsx:28-29 | Every status filter and every risk filter, All included, appears exactly once among the page's choices. |
| ChangeRequestList.FixtureApprovedFilter | src/pages/ChangeRequestList.tsx:23 | On the fixture, the status filter Approved lists CR002 and then CR001. |
| CreateChangeRequest.AvailableApprovers | src/pages/CreateChangeRequest.tsx:40 | The available approvers are exactly the users whose role is Approver, in their original order, each as often as it occurs among the users. |
| CreateChangeRequest.AddSelection | src/pages/CreateChangeRequest.tsx:46-51 | The selection is unchanged when no available approver has the id, or when the id is already selected. Otherwise exactly one entry is appended: the id with the first matching approver's name and email. Adding never creates a duplicate id. |
| CreateChangeRequest.RemoveSelection | src/pages/CreateChangeRequest.tsx:53-55 | Every entry with the id is dropped, and the others keep their order and their multiplicity. Removing an absent id changes nothing, and removing never creates a duplicate id. |
| CreateChangeRequest.FilterNoDuplicateIds | src/pages/CreateChangeRequest.tsx:54 | Filtering a selection without repeated ids leaves none. |
| CreateChangeRequest.RemoveUndoesAdd | src/pages/CreateChangeRequest.tsx:46-55 | Adding an id that was not selected and then removing it gives back the original selection. |
| CreateChangeRequest.InitialForm | src/pages/CreateChangeRequest.tsx:25-38 | All twelve form fields start as the empty string. |
| CreateChangeRequest.InitialFormNotSubmittable | src/pages/CreateChangeRequest.tsx:25-38 | The fresh form fails the browser's `required` check, so it cannot be submitted for approval before the fields are filled. |
| CreateChangeRequest.CreateChangeRequestPage.constructor | src/pages/CreateChangeRequest.tsx:22-38 | The page starts with no submission in flight, an empty selection and the initial form. |
| CreateChangeRequest.CreateChangeRequestPage.HandleInputChange | src/pages/CreateChangeRequest.tsx:42-44 | The named field takes the value. Every other field, the selection and the flag are unchanged. |
| CreateChangeRequest.CreateChangeRequestPage.AddApprover | src/pages/CreateChangeRequest.tsx:46-51 | The new selection is `AddSelection` of the old one over the available approvers. The page invariant (no duplicate ids, only available approvers) is kept. The form is untouched. |
| CreateChangeRequest.CreateChangeRequestPage.RemoveApprover | src/pages/CreateChangeRequest.tsx:53-55 | The new selection is `RemoveSelection` of the old one. The invariant is kept and the form is untouched. |
| CreateChangeRequest.CreateChangeRequestPage.StartSubmit | src/pages/CreateChangeRequest.tsx:57-69 | The in-flight flag is set, which disables both buttons. The pending submission records the size of the selection, and that size is at least one when 'Submit for Approval' was enabled. |
| CreateChangeRequest.CreateChangeRequestPage.FinishSubmit | src/pages/CreateChangeRequest.tsx:63-73 | The outcome is 'saved as draft', or 'submitted' with the recorded approver count. The flag is cleared, and the selection and form are unchanged. |
| CreateChangeRequest.CreateChangeRequestPage.PressSubmitForApproval | src/pages/CreateChangeRequest.tsx:100-348 | A press starts a submission for approval exactly when the button is enabled and all ten `required` fields are non-empty. The submission records the selection size, at least one. Otherwise nothing changes. |
| CreateChangeRequest.CreateChangeRequestPage.PressSaveAsDraft | src/pages/CreateChangeRequest.tsx:336-340 | A press starts saving a draft exactly when the button is enabled (no submission in flight), whatever the fields hold. Otherwise nothing changes. |
| CreateChangeRequest.SubmitEnabledImpliesDraftEnabled | src/pages/CreateChangeRequest.tsx:339-348 | Whenever 'Submit for Approval' is enabled (`SubmitDisabled` is false), 'Save as Draft' is enabled too (`DraftDisabled` is false). |
| CreateChangeRequest.FixtureAvailableApprovers | src/data/mockData.ts:101-106 | On the fixture the available approvers are exactly Pravin G and Aniket H. |
| Dashboard.PendingCRs | src/pages/Dashboard.tsx:11 | `pendingCRs` is the number of CRs whose status is Pending. |
| Dashboard.ApprovedCRs | src/pages/Dashboard.tsx:12 | `approvedCRs` is the number of CRs whose status is Approved. |
| Dashboard.CriticalCRs | src/pages/Dashboard.tsx:13 | `criticalCRs` is the number of CRs whose risk rating is Critical. |
| Dashboard.CountsBounded | src/pages/Dashboard.tsx:10-13 | pending + approved is at most the total (`TotalCRs`), and critical is at most the total. |
| Dashboard.PrependNewestFirst | src/pages/Dashboard.tsx:16 | An element no older than the head of a newest-first sequence keeps it newest first when placed in front. |
| Dashboard.InsertSpec | src/pages/Dashboard.tsx:16 | Inserting into a newest-first sequence keeps it newest first and adds exactly that element. |
| Dashboard.SortSpec | src/pages/Dashboard.tsx:15-16 | The sorted copy (`SortNewestFirst`) is ordered by `updatedAt`, never increasing, and is a permutation of the input. |
| Dashboard.SortThree | src/pages/Dashboard.tsx:16 | Three CRs whose timestamps satisfy b < a < c sort to c, a, b. |
| Dashboard.RecentOfThree | src/pages/Dashboard.tsx:15-17 | With three CRs whose timestamps satisfy b < a < c, the recent list is c, a, b. |
| Dashboard.RecentCRs | src/pages/Dashboard.tsx:15-17 | The result has `min(5, total)` CRs, ordered newest first, each drawn from the input. With at most five CRs it is a permutation of all of them. No CR left out is newer than any CR shown. |
| Dashboard.NewestPrefix | src/pages/Dashboard.tsx:17 | A prefix of a newest-first sequence is newest first and at least as new as everything after it. |
| Dashboard.FixtureStatistics | src/data/mockData.ts:22-99 | On the fixture: total 3, pending 1, approved 2, critical 1. |
| Dashboard.FixtureRecent | src/pages/Dashboard.tsx:15-17 | On the fixture the recent list is CR001, CR003, CR002. |
| Approvers.Directory | src/pages/Approvers.tsx:26 | The directory holds exactly the users whose role is Approver or Admin, in their original order, each as often as it occurs among the users. |
| Approvers.NoRequesterInDirectory | src/pages/Approvers.tsx:26 | No Requester appears in the directory. |
| Approvers.SearchUsers | src/pages/Approvers.tsx:28-31 | A user is kept if and only if the lower-cased query occurs in the lower-cased name or email. The order and the multiplicity of the kept users are kept. |
| Approvers.SearchDirectory | src/pages/Approvers.tsx:26-31 | Searching the directory keeps exactly the users that are in the directory and match the query, in their original order and with their multiplicity. |
| Approvers.EmptySearchKeepsAll | src/pages/Approvers.tsx:28-31 | An empty query keeps every user. |
| Approvers.SearchIgnoresCase | src/pages/Approvers.tsx:28-31 | Two queries that differ only in letter case keep the same users. |
| Approvers.AddUserStepChanges | src/pages/Approvers.tsx:41-49 | An add changes the dialog if and only if name, email and role are all non-empty. The fields are either kept or cleared all at once, and a dialog still open afterwards is one whose add was refused. |
| Approvers.AddUserTwiceIsOnce | src/pages/Approvers.tsx:41-49 | A second add straight after the first changes nothing. |
| Approvers.ApproversPage.constructor | src/pages/Approvers.tsx:22-24 | The page starts with an empty query, the dialog closed and empty fields. |
| Approvers.ApproversPage.FilteredApprovers | src/pages/Approvers.tsx:26-31 | A card is shown if and only if its user is in the directory and matches the query. The cards follow the users' order and multiplicity. |
| Approvers.ApproversPage.SetSearchQuery | src/pages/Approvers.tsx:139 | Only the query changes. |
| Approvers.ApproversPage.SetDialogOpen | src/pages/Approvers.tsx:71 | Only the open flag changes. |
| Approvers.ApproversPage.SetNewUserName | src/pages/Approvers.tsx:92 | Only the name field changes. |
| Approvers.ApproversPage.SetNewUserEmail | src/pages/Approvers.tsx:102 | Only the email field changes. |
| Approvers.ApproversPage.SetNewUserRole | src/pages/Approvers.tsx:109 | Only the role field changes. |
| Approvers.ApproversPage.HandleAddUser | src/pages/Approvers.tsx:41-49 | The add is accepted exactly when all three fields are non-empty. An accepted add closes the dialog and clears the fields (`AddUserStep`); a refused one changes nothing. The query is unchanged. |
| Approvers.FixtureDirectory | src/data/mockData.ts:101-106 | On the fixture the directory holds the three users Pravin G, Aniket H and Admin User. |
| Approvers.FixtureNameInitials | src/pages/Approvers.tsx:155 | The names Pravin G, Aniket H and Admin User give the initials PG, AH and AU. |
| Approvers.FixtureInitials | src/pages/Approvers.tsx:155 | The fixture's directory has three cards, and they show the initials PG, AH and AU, in that order. |
| Header.IsActiveIff | src/components/Header.tsx:35 | A link is active (`IsActive`) if and only if the path equals its target, or the path continues the target with '/' right after it. |
| Header.SiblingPathNotActive | src/components/Header.tsx:35 | `/dashboardx` does not activate `/dashboard`. `/change-requests/new` and `/change-requests/1` do activate `/change-requests`. |
| Header.ActiveSharesSecondChar | src/components/Header.tsx:35 | A path that activates a link agrees with the link's target in its second character. |
| Header.AtMostOneActive | src/components/Header.tsx:15-35 | For any path, at most one of the three fixed navigation links is active. |
| Header.ActiveLinksAtMostOne | src/components/Header.tsx:32-35 | Of the visible links (`VisibleNavItems`: all three signed in, none signed out), at most one is highlighted (`ActiveLinks`), and none when signed out. |
| Header.DefaultHeader | src/components/Header.tsx:12-35 | With the default `isAuthenticated = true` all three links are shown, and every path that starts with `/change-requests/` highlights exactly 'Change Requests'. |
| Header.DefaultInitials | src/components/Header.tsx:71 | With the default user name 'John Doe' (line 12), the avatar shows "JD". |
| ChangeRequestCard.ApprovedCount | src/components/ChangeRequestCard.tsx:21 | `approvedCount` is the number of approvers whose status is Approved, and it never exceeds the number of approvers. |
| ChangeRequestCard.AllApprovedIff | src/components/ChangeRequestCard.tsx:56 | The card shows "n/n Approved" if and only if every approver has approved. |
| ChangeRequestCard.DetailPath | src/components/ChangeRequestCard.tsx:25 | The link is `/change-requests/` followed by the CR's id, and the id can be read back from it. |
| ChangeRequestCard.DetailPathInjective | src/components/ChangeRequestCard.tsx:25 | Two cards link to the same path if and only if their CRs have the same id. |
| ChangeRequestCard.DetailPathActivatesList | src/components/Header.tsx:35 | On a detail page the header highlights 'Change Requests' and neither other link. |
| ChangeRequestCard.FixturePendingRatio | src/data/mockData.ts:3-20 | The Pending fixture CR003 has 2 approvers, 1 of them Approved. |
| ChangeRequestDetail.Lookup | src/pages/ChangeRequestDetail.tsx:12-15 | The lookup returns the first CR whose id equals the route id. It returns nothing when the route has no id or no CR has that id. |
| ChangeRequestDetail.Actions | src/pages/ChangeRequestDetail.tsx:92-118 | Send Email, Print and Edit are always offered. Approve and Reject are offered if and only if the CR is Pending. |
| ChangeRequestDetail.Render | src/pages/ChangeRequestDetail.tsx:13-33 | The page shows 'not found' exactly when the route has no id or no CR has that id. Otherwise it shows the first CR with that id, always offering Send Email, Print and Edit, and offering Approve and Reject if and only if that CR is Pending. |
| ChangeRequestDetail.HandlersKeepActions | src/pages/ChangeRequestDetail.tsx:46-62 | No handler (`HandleSendEmail`, `HandleApprove`, `HandleReject`) changes the CR's status, so the same actions are offered afterwards; approving or rejecting a Pending CR still offers both. The approve and reject notices name the CR's `requestId`. The e-mail notice counts all approvers, at least as many as have approved. |
| ChangeRequestDetail.FixtureLookupFound | src/pages/ChangeRequestDetail.tsx:13 | On the fixture, route "1" finds CR003 and route "2" finds CR002. |
| ChangeRequestDetail.FixtureLookupMissing | src/pages/ChangeRequestDetail.tsx:15-33 | On the fixture, route "4" and a route without an id show 'not found'. |
| ChangeRequestDetail.FixtureActions | src/pages/ChangeRequestDetail.tsx:107-118 | The Pending fixture CR003 offers Approve, and the Approved CR002 does not. |

## Left out

- Rendering, styling and icons are left out. This covers `StatusBadge`, `StatCard`, `CRDetailSection`, `Index` and the timeline component, which are presentation only. It also covers the list page's grid/list toggle (`viewMode`, `src/pages/ChangeRequestList.tsx:17`), which changes only the layout.
- Toasts are left out. The detail page's handlers return their notice as a value. `ApproversPage.HandleAddUser` reports only whether the add was accepted, not its toast text (the new user's name and role, `src/pages/Approvers.tsx:43-45`), and the create page's `FinishSubmit` returns the outcome with the approver count. Routing and navigation (`navigate`, `Link`, `useParams`, `useLocation`) are left out too; the route id and the current path are parameters.
- The one-second simulated delay in `handleSubmit` is left out, because it is asynchronous. The handler is split into the step before the wait (`StartSubmit`) and the step after it (`FinishSubmit`).
- Date parsing and locale formatting are left out. `updatedAt` is an integer timestamp, and the other dates are plain strings.
- Text.Lower: lower-cases ASCII letters only, not the full Unicode `toLowerCase`. A `char` is a Unicode scalar, not a UTF-16 code unit.
- Text.Initials: takes the whole first character of each word. JavaScript's `n[0]` takes the first UTF-16 code unit, which for a character outside the Basic Multilingual Plane is half of a surrogate pair.
- Dashboard.SortSpec: states order and permutation but not stability. `Array.prototype.sort` is stable (ECMAScript 2019 and later), and the model's insertion keeps equal timestamps in input order too, but no contract says so. None of the fixture CRs share a timestamp.
- React's batching of state updates is not modelled. Handlers run one after another, each seeing the previous one's state. `handleSubmit` reads `selectedApprovers.length` from the render in which it was pressed (`src/pages/CreateChangeRequest.tsx:69`); `StartSubmit` records the count at that moment, so `FinishSubmit` reports it even if the selection changes during the wait.
- Of the browser's form validation, only the `required` check is modelled (`PressSubmitForApproval`); the form has no other constrained input. Pressing Enter in a field submits through the default button, 'Submit for Approval', so it is gated the same way.
- `handleSendInvite` only shows a notice, and Edit only navigates, so they have no state to model. The Print button has no handler at all (`src/pages/ChangeRequestDetail.tsx:97-100`). Edit targets `/change-requests/<id>/edit`, a page that is not part of this model.
- No id cross-references between the fixture's approver entries and its users are stated, because those ids do not agree.
- CreateChangeRequest.CreateChangeRequestPage.HandleInputChange: any field name is accepted, like the source's computed-key spread. The model does not restrict `field` to the twelve form fields.
