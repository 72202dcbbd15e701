# Ticketing dashboard: decision rules and session state

This project models the internal ticketing dashboard's decision logic, the
part that is not presentation:

- the ticket list's search-and-status filter and its per-ticket action
  buttons;
- the navigation sidebar: the menu chosen by role and which entry is
  highlighted for the current path;
- the authentication provider's session and role state, and how each
  callback updates it;
- the route guard in front of every dashboard page;
- the "Code Red" escalation page: the elapsed-time label, the banner,
  "All Clear" and the admin-only action;
- the team page: its totals, the avatar initials and the role-gated
  entries.

The pages are pure: each is a function from what it reads (the viewer's
role, the list it shows, the filter inputs, the current path) to a record
of what it renders. The authentication provider changes its state step by
step, so it is a class, `AuthContext.AuthProvider`, with one method per
callback. The methods beside it (`AuthContext.InitialSessionBeforeRole`,
`AuthContext.InitialSessionThenRole`, `AuthContext.FailsafeUnblocks`,
`AuthContext.SignOutRevokesAdmin`, `AuthContext.CallbacksIgnoredAfterUnmount`,
`DashboardLayout.LayoutAtStart`, `DashboardLayout.LayoutAfterInitialSession`
and `DashboardLayout.LayoutAfterFailsafe`) each
build a provider, run a sequence of callbacks and return what consumers
would then see.

The pages render fixed mock lists. The model takes those lists as
parameters, so every property holds for any list.

The JavaScript string built-ins the pages use are written out in module
`Text`:

- `toLowerCase`/`toUpperCase` on ASCII letters;
- `includes`;
- `startsWith`;
- `split` on one character, with `join` as its inverse;
- `charAt(0)`;
- number interpolation, with a parser that reads it back.

The `.filter` and `.reduce` list operations are in module `Seqs`.

Modules: `Wrappers`, `Text`, `Seqs`, `Tickets`, `AppSidebar`, `AuthContext`,
`DashboardLayout`, `CodeRed`, `Users`.

## Model

| member | source | states |
|---|---|---|
| Text.Lower | src/pages/Tickets.tsx:124-125 | lowering keeps the length and lowers every ASCII letter by 32 code points, leaving every other character as it is |
| Text.Includes | src/pages/Tickets.tsx:124-125 | `includes` is true exactly when the substring occurs at some index |
| Text.IncludesEmpty | src/pages/Tickets.tsx:124-126 | every string includes the empty string |
| Text.Split | src/pages/Users.tsx:166 | splitting on a character gives one more piece than its occurrences, no piece contains it, and joining the pieces with it gives back the input |
| Text.BeforeFirst | src/pages/Tickets.tsx:295 | `split(sep)[0]` has no separator, is a prefix of the input, is followed by the separator when there is one, and is the whole input otherwise |
| Text.BeforeFirstOfJoined | src/pages/Tickets.tsx:295 | the first `split` piece of `a`, a separator and `b` is `a` when `a` has no separator |
| Text.CharAt0 | src/components/AppSidebar.tsx:112 | `charAt(0)` is the first character, or empty exactly for the empty string |
| Text.IntToStringRoundTrip | src/pages/CodeRed.tsx:56-58 | the decimal rendering of an integer reads back as that integer |
| Text.IntToStringInjective | src/pages/CodeRed.tsx:56-58 | distinct integers render as distinct text |
| Seqs.Filter | src/pages/Tickets.tsx:123-128 | every element of the result is in the input and satisfies the predicate, and every input element that satisfies it is in the result |
| Seqs.FilterSelectsKept | src/pages/Tickets.tsx:123-128 | the result is the order-preserving subsequence at exactly the indices whose elements satisfy the predicate |
| Seqs.FilterAll | src/pages/Tickets.tsx:123-128 | when every element satisfies the predicate, the result is the input |
| Seqs.FilterIdempotent | src/pages/Tickets.tsx:123-128 | filtering a filtered list again changes nothing |
| Seqs.SumLeftIsSum | src/pages/Users.tsx:130 | the left fold `reduce((sum, u) => sum + f(u), acc)` equals `acc` plus the sum of `f` over the list |
| Seqs.SumAppend | src/pages/Users.tsx:130 | the sum over a concatenation is the sum of the sums |
| Seqs.SumMonotone | src/pages/Users.tsx:130-143 | a per-element bound carries over to the sums |
| Tickets.StatusLabelsDistinct | src/pages/Tickets.tsx:104-109 | `StatusLabel`: distinct statuses show distinct badge labels |
| Tickets.PriorityLabelsDistinct | src/pages/Tickets.tsx:111-115 | `PriorityLabel`: distinct priorities show distinct badge labels |
| Tickets.MarkResolvedOnOpenTickets | src/pages/Tickets.tsx:309 | `ShowsMarkResolved`: "Mark Resolved" iff the viewer is not admin and the status is wip or pending |
| Tickets.EscalateIgnoresStatus | src/pages/Tickets.tsx:314 | `ShowsEscalate`: "Escalate" iff the viewer is not admin and the ticket is not code red, whatever its status |
| Tickets.StatusName | src/pages/Tickets.tsx:121-126 | no status is stored as "all", so the wildcard never equals a real status |
| Tickets.StatusNameInjective | src/pages/Tickets.tsx:121-126 | distinct statuses are stored as distinct strings |
| Tickets.FilterTickets | src/pages/Tickets.tsx:123-128 | a ticket is shown exactly when it is in the list, its lowered title or lowered id includes the lowered query, and the filter is "all" or equals its status |
| Tickets.FilterIsKeptSubsequence | src/pages/Tickets.tsx:123-128 | the filtered list is the order-preserving subsequence of exactly the kept tickets |
| Tickets.FilterNothing | src/pages/Tickets.tsx:124-126 | an empty query with the "all" filter returns the list unchanged |
| Tickets.FilterTicketsIdempotent | src/pages/Tickets.tsx:123-128 | filtering the filtered list again with the same inputs returns it unchanged |
| Tickets.FilterByStatus | src/pages/Tickets.tsx:126 | a status filter keeps only tickets of that status |
| Tickets.TicketsPage | src/pages/Tickets.tsx:137-338 | the dialog exists iff the viewer is admin; one card per shown ticket, in order; "Mark Resolved" iff not admin and the status is wip or pending; "Escalate" iff not admin and not code red; the assignee is `BeforeFirst(assignedTo, '@')`: the text up to the first '@', or the whole address without one; the empty state appears iff no card is shown |
| Tickets.EmptyStateMessages | src/pages/Tickets.tsx:326-334 | "Try adjusting your filters" iff nothing matched and the query is non-empty or the filter is not "all"; "No tickets have been created yet" iff the list is empty and no filter is active |
| Tickets.AdminSeesNoTicketActions | src/pages/Tickets.tsx:309-319 | an admin is offered neither per-ticket action |
| Tickets.ClosedTicketStillEscalates | src/pages/Tickets.tsx:309-319 | a closed ticket that is not code red offers "Escalate" to a non-admin but not "Mark Resolved" |
| AppSidebar.NavItems | src/components/AppSidebar.tsx:30-51 | an admin gets the six admin entries and anyone else the three user entries, with their titles and URLs in declared order |
| AppSidebar.UserMenuWithinAdminMenu | src/components/AppSidebar.tsx:30-43 | every user-menu URL is also in the admin menu |
| AppSidebar.DashboardActiveOnlyOnItself | src/components/AppSidebar.tsx:55-57 | the dashboard entry is active iff the path is exactly "/dashboard" |
| AppSidebar.OtherEntriesMatchByPrefix | src/components/AppSidebar.tsx:54-59 | `IsActive`: every entry other than the dashboard is active iff the path starts with its URL |
| AppSidebar.PrefixMatchIgnoresSegments | src/components/AppSidebar.tsx:58 | other entries match by raw prefix: "/dashboard/tickets" is active on "/dashboard/tickets-archive" |
| AppSidebar.PrefixesNest | src/components/AppSidebar.tsx:58 | of two prefixes of one path, the shorter is a prefix of the longer |
| AppSidebar.AtMostOneActiveIn | src/components/AppSidebar.tsx:54-59 | in a menu where no prefix-matched URL begins another entry's URL, at most one entry is active on any path |
| AppSidebar.SectionMenuPrefixFree | src/components/AppSidebar.tsx:30-43 | a menu made of "/dashboard" and entries under "/dashboard/" that differ at the next character has that property |
| AppSidebar.MenusArePrefixFree | src/components/AppSidebar.tsx:30-43 | both declared menus have that property |
| AppSidebar.AtMostOneActive | src/components/AppSidebar.tsx:30-59 | for either menu and any path, at most one entry is active |
| AppSidebar.AvatarInitial | src/components/AppSidebar.tsx:112 | the avatar letter is the upper-cased first character of the email, and empty when there is no user, no email or an empty email |
| AppSidebar.GroupLabel | src/components/AppSidebar.tsx:78 | the group label is "Admin" iff the viewer is admin, otherwise "Navigation" |
| AppSidebar.RoleLabel | src/components/AppSidebar.tsx:119 | the footer role label is "Admin" iff the viewer is admin, otherwise "User" |
| AppSidebar.Sidebar | src/components/AppSidebar.tsx:51-122 | the group label, entry titles and footer text are shown iff the sidebar is expanded, and are then the role's labels and the menu's titles; 6 or 3 entries with the menu's URLs, each highlighted iff `IsActive` holds for it; never two highlighted; the avatar is `AvatarInitial(user)` |
| AppSidebar.HighlightOnDashboard | src/components/AppSidebar.tsx:54-59 | on "/dashboard" exactly the first (dashboard) entry is highlighted, in either menu |
| AuthContext.UserOf | src/contexts/AuthContext.tsx:51-64 | `session?.user ?? null` is absent exactly when the session is, and otherwise is the session's user |
| AuthContext.RoleAfterLookup | src/contexts/AuthContext.tsx:26-36 | a lookup sets the role only when it returns a row; on error or no row the role stays as it was |
| AuthContext.LookupNeverClearsNorEscalates | src/contexts/AuthContext.tsx:33-35 | a lookup never clears a held role, and yields admin only from an admin row or an admin role already held |
| AuthContext.UseAuth | src/contexts/AuthContext.tsx:118-124 | `useAuth` returns the provider's value, or fails with "useAuth must be used within an AuthProvider" when there is none |
| AuthContext.AuthProvider.constructor | src/contexts/AuthContext.tsx:21-39 | initially no user, no session, no role, loading, mounted |
| AuthContext.AuthProvider.Value | src/contexts/AuthContext.tsx:102-112 | the value passed down carries the state, with `isAdmin` iff the role is admin |
| AuthContext.AuthProvider.InitialSessionResolved | src/contexts/AuthContext.tsx:48-55 | while mounted: session and user set from the result, loading over, role untouched (its fetch is not awaited); after unmount: nothing changes |
| AuthContext.AuthProvider.InitialSessionFailed | src/contexts/AuthContext.tsx:56-58 | loading ends if mounted, and nothing else changes |
| AuthContext.AuthProvider.FailsafeTimeout | src/contexts/AuthContext.tsx:41-46 | loading ends if mounted; the captured `loading` is always the initial true, so only `mounted` decides |
| AuthContext.AuthProvider.AuthStateChanged | src/contexts/AuthContext.tsx:60-72 | while mounted: session and user set, role from the awaited lookup for a user or cleared for none, loading over; after unmount: nothing changes |
| AuthContext.AuthProvider.RoleLookupResolved | src/contexts/AuthContext.tsx:26-54 | the initial session's role fetch updates the role as a lookup does, whether or not still mounted, and nothing else |
| AuthContext.AuthProvider.SignOut | src/contexts/AuthContext.tsx:97-100 | sign-out ends with no role, and nothing else changes |
| AuthContext.AuthProvider.Unmount | src/contexts/AuthContext.tsx:74-78 | the cleanup clears `mounted`, and nothing else changes |
| AuthContext.InitialSessionBeforeRole | src/contexts/AuthContext.tsx:48-55 | right after the initial session resolves, loading is false and the user known while the viewer is not yet admin |
| AuthContext.InitialSessionThenRole | src/contexts/AuthContext.tsx:26-108 | once the initial role lookup returns, the viewer is admin iff it returned an admin row |
| AuthContext.FailsafeUnblocks | src/contexts/AuthContext.tsx:41-46 | when the session check never answers, the failsafe ends loading with nobody signed in |
| AuthContext.SignOutRevokesAdmin | src/contexts/AuthContext.tsx:60-100 | an admin who signs out is not admin afterwards, and the following no-session notification clears the user |
| AuthContext.CallbacksIgnoredAfterUnmount | src/contexts/AuthContext.tsx:42-78 | after unmount the session, auth-change, failure and timer callbacks leave loading set and no user |
| DashboardLayout.Layout | src/layouts/DashboardLayout.tsx:19-27 | nothing is rendered iff loading; a redirect to the sign-in page iff not loading and no user; the layout iff not loading and a user |
| DashboardLayout.EffectAgreesWithRender | src/layouts/DashboardLayout.tsx:12-16 | the navigate effect fires iff `!loading && !user`, exactly when the render redirects |
| DashboardLayout.LayoutAtStart | src/layouts/DashboardLayout.tsx:19-21 | with a fresh provider the guard renders nothing |
| DashboardLayout.LayoutAfterInitialSession | src/layouts/DashboardLayout.tsx:19-27 | after the initial session resolves: a redirect without a session, the layout with one |
| DashboardLayout.LayoutAfterFailsafe | src/layouts/DashboardLayout.tsx:23-25 | after the failsafe with no answer, a redirect |
| CodeRed.ElapsedSince | src/pages/CodeRed.tsx:55-58 | hours under a day, days from then on; the hours are the floor of the elapsed hours and below 24, the days are the floor of the elapsed days and at least 1 |
| CodeRed.ElapsedClosedForm | src/pages/CodeRed.tsx:55-58 | the hours-then-days floors equal `elapsed / 3600000` hours below a day and `elapsed / 86400000` days from then on |
| CodeRed.TimeAgo | src/pages/CodeRed.tsx:52-59 | the label is "{elapsed / 3600000}h ago" below one day and "{elapsed / 86400000}d ago" from then on |
| CodeRed.LabelRoundTrip | src/pages/CodeRed.tsx:56-58 | an "{n}h ago" or "{n}d ago" label reads back as the elapsed report it was written from |
| CodeRed.TimeAgoReadsBack | src/pages/CodeRed.tsx:52-59 | the label names `elapsed / 3600000` hours below one day and `elapsed / 86400000` days (at least 1) from then on |
| CodeRed.Banner | src/pages/CodeRed.tsx:77-83 | the banner exists iff the count is positive |
| CodeRed.BannerStartsWithCount | src/pages/CodeRed.tsx:83 | the banner's first word reads back as the count |
| CodeRed.BannerNoun | src/pages/CodeRed.tsx:83 | one escalation is "1 critical issue active", more are "N critical issues active" |
| CodeRed.CodeRedPage | src/pages/CodeRed.tsx:77-168 | the banner is `Banner` of the list length, so present iff the list is non-empty; "All Clear" iff it is empty, never both; one card per ticket with its id, title, "Escalated" line and the assignee up to the first '@'; "Resolve & Close" iff admin |
| Users.FirstChars | src/pages/Users.tsx:166 | one initial at most per piece |
| Users.Initials | src/pages/Users.tsx:166 | at most one initial per space-separated piece, that is at most the number of spaces plus one |
| Users.WordStartsAppend | src/pages/Users.tsx:166 | the reference scan over a concatenation is the scan of each part |
| Users.InitialsStep | src/pages/Users.tsx:166 | the initials of a name are its first word's first character followed by the initials of the rest |
| Users.InitialsAreWordStarts | src/pages/Users.tsx:166 | the initials are exactly the characters that start a word (not a space, and first or after a space), whatever the spacing |
| Users.InitialsAreNameLetters | src/pages/Users.tsx:166 | no initial is a space, and every initial comes from the name |
| Users.TwoWordInitials | src/pages/Users.tsx:166 | a first and a last name without spaces give their two first letters |
| Users.InitialsExample | src/pages/Users.tsx:166 | "John Doe" gives "JD" |
| Users.UsersPage | src/pages/Users.tsx:81-226 | a non-admin sees only "Access Restricted"; an admin sees the list length and the sums of assigned and resolved tickets, one row per member with its initials, the default badge iff admin, and "Promote to Admin" iff not admin |
| Users.ResolvedTotalWithinAssigned | src/pages/Users.tsx:130-143 | when nobody resolved more than they were assigned, the resolved total is at most the assigned total |
| Users.TotalsAdd | src/pages/Users.tsx:118-143 | the totals over two concatenated lists are the sums of their totals |

## Left out

- The identity provider calls (`getSession`, `onAuthStateChange`,
  `signInWithPassword`, `signUp`, `signOut`) and the `user_roles` query are
  foreign I/O. Their results are parameters of the event methods.
  `signIn` and `signUp` only forward the provider's error, so they have no
  member.
- Asynchronous interleavings are not modelled. Each callback is one atomic
  event. `AuthContext.AuthProvider.AuthStateChanged` applies the role
  lookup it awaits in the same step, so an unmount during that await is not
  captured. The provider keeps no record of a pending initial role fetch,
  so `AuthContext.AuthProvider.RoleLookupResolved` may be called at any
  time.
- The ticket status and escalation transitions are not modelled, because
  the "Mark Resolved", "Escalate" and "Resolve & Close" buttons have no
  handlers. The "Escalate" button at src/pages/Tickets.tsx:314 tests only
  the role and the code-red flag, so a closed ticket that is not code red
  still offers it (`Tickets.ClosedTicketStillEscalates`).
- Dates: parsing the stored date strings, reading the clock and
  `toLocaleDateString` are left out. `CodeRed.ElapsedSince` takes
  `now - escalatedAt` as integer milliseconds. An unparsable date (a `NaN`
  label) is not modelled.
- Floating-point animation delays, styling, icons and layout markup are
  left out.
- Case mapping covers ASCII letters only. Unicode lowering and upper-casing
  are not modelled.
- Text.CharAt0: a Dafny `char` is a whole code point, while JavaScript's
  `charAt(0)` and `n[0]` return one UTF-16 code unit. For an email or a
  name that starts outside the Basic Multilingual Plane, the avatar letter
  and the initials show a lone surrogate; the model shows the whole
  character. `Users.Initials` has the same gap.
- Users.UsersPage: the ticket counts are unbounded integers. In the source
  they are JavaScript numbers (doubles), whose sums are exact only below
  2^53.
- The fixed mock lists are not reproduced. The pages take their lists as
  parameters.
- The analytics, dashboard, projects and sign-in pages are not part of this
  model: they hold constant mock data, a stubbed create handler and
  browser-side form validation. Neither is the badge style table.
