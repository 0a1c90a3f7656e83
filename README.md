# IT support portal: a verified model of its front-end logic

The portal is a React front end over a hosted database. Signed-in staff open
and follow support tickets, search a knowledge base, and (as admins) manage
users and the portal's settings. This project models in Dafny the logic the
pages carry themselves and proves what that logic guarantees:

- **Ticket collaboration** (`TicketDetails`). A status change or an
  assignment is a field-scoped update of the ticket row. A comment is an
  insert. Each one writes an audit row to the ticket's history only when the
  primary write reported no error.
  - The hosted tables are a `Backend` object whose writes take the store's
    answer as a parameter.
  - The pure functions `Step` and `Replay` specify what one action, and a run
    of actions, do to those tables. The page's methods are proved to perform
    `Step`.
  - Lemmas over any run prove the following. The history gains exactly one
    row per audited change, in order. Comments are append-only. The last
    successful change of each field wins, and nothing else in the ticket
    changes.
  - The two realtime handlers are methods on the page.
- **Session store** (`AuthStore`). The store has two fields, the signed-in
  user and a loading flag. Sign-in, sign-out and the session check drive them.
  The profile lookup `.single()` is the function `SingleById`.
- **Forms.**
  - The shared email pattern has a hand-written recognizer. It is proved to
    accept exactly what the regular expression's definition accepts
    (`EmailPattern`).
  - The password, SLA and required-field rules are boolean functions. A
    length rule counts UTF-16 code units, as JavaScript's `length` does, and
    the SLA field is read as the text the number input delivers.
  - The rows each form writes are functions: the new ticket (always `open`),
    the new user's profile, and the portal settings (always row 1).
  - Each form's submit flow, and its loading and navigation effects, is a
    method (`Login`, `NewTicket`, `NewUser`, `Settings`).
- **Lists and navigation.**
  - Each case-insensitive search filter is a `Seqs.Filter` with membership,
    multiplicity and order contracts: the help articles, the knowledge base
    and the user page. The user page computes its filtered list on every
    render but never draws it, and as written the computation throws (see
    Findings).
  - `'all'` in a selector means "no constraint".
  - The expanded-article toggle.
  - The admin gates, and navigation visibility by role with at most one
    active item (`DashboardLayout`).

Every store answer is a parameter: an error or none, the rows a query
returns, the identity provider's outcome. So are the clock reading the
settings row records and the realtime payloads. Router navigation is
recorded as the target path. A full page reload is recorded as a flag.

`toLowerCase` is modelled on ASCII letters only. JavaScript `undefined`
becomes `None`, which the history text prints as "undefined". A SQL null
becomes `None` and prints as "null".

The assignment handler does not check that the chosen user has a staff role.
The assign selector only offers staff, but the handler writes whatever id it
is given. The model follows the code.

## Model

| member | source | states |
|---|---|---|
| Seqs.Filter | src/pages/Login.tsx:44-47 | `Array.prototype.filter`: an element is kept iff it is in the input and satisfies the predicate, with its multiplicity unchanged, and the result is a subsequence of the input (order preserved) |
| Seqs.FilterTwice | src/pages/Login.tsx:49-51 | filtering the filtered list again equals one filter by the conjunction of the two predicates |
| Text.IncludesAt | src/pages/Login.tsx:44-47 | `includes` (recursive) holds iff the term occurs at some position of the text |
| Text.EmptyTermMatches | src/pages/Login.tsx:44-47 | every text contains the empty term, so an empty search box hides nothing |
| Text.TermCaseIgnored | src/pages/Login.tsx:44-47 | the search gives the same answer for a term and for its lower-cased form |
| Text.Utf16Length | src/pages/Login.tsx:127-131 | `value.length` counts UTF-16 code units: between one and two per character, exactly one per character for text inside the Basic Multilingual Plane |
| Text.ThreeEmojiAreSixUnits | src/pages/Login.tsx:127-131 | three emoji outside the Basic Multilingual Plane have length six |
| Types.Restricted | src/pages/Users.tsx:25 | the admin gate holds back exactly the visitors who are not signed in or whose stored role string is not "admin"; whoever passes it is staff |
| Types.StatusNameInjective | src/types/index.ts:16 | the four stored status strings are distinct, so a stored string names one status |
| EmailPattern.Recognize | src/pages/Login.tsx:103 | an accepted address is at least six characters long, starts with a local-part character and ends with a letter |
| EmailPattern.RecognizeIsPattern | src/pages/Login.tsx:103 | the recognizer accepts a string iff it splits as a non-empty local part over `[A-Z0-9._%+-]`, an `@`, a non-empty domain part over `[A-Z0-9.-]`, a dot, and two or more letters to the end (case-insensitive) |
| EmailPattern.RecognizeIsSound | src/pages/Login.tsx:103 | every string the recognizer accepts has split points at which the pattern matches |
| EmailPattern.RecognizeIsComplete | src/pages/Login.tsx:103 | every string the pattern matches is accepted: its `@` is the first one and its top-level dot the last dot after it |
| EmailPattern.FieldAccepts | src/pages/Login.tsx:100-106 | the email field (`required` plus the pattern) accepts exactly the strings the pattern matches |
| EmailPattern.AcceptsPlainAddress | src/pages/Login.tsx:103 | a concrete address (`ana@it.es`) matches the pattern |
| EmailPattern.RefusesOneLetterDomain | src/pages/Login.tsx:103 | a one-letter top-level domain is refused |
| AuthStore.SingleById | src/store/authStore.ts:23-27 | `.single()` returns a row only if it is in the table with the requested id and is the only such row, and returns none when no row has the id |
| AuthStore.SingleRowFound | src/store/authStore.ts:23-29 | a row whose id no other row carries is the one the lookup returns |
| AuthStore.Store.constructor | src/store/authStore.ts:14-15 | the store starts with no user and `loading` true |
| AuthStore.Store.SignIn | src/store/authStore.ts:16-30 | an identity-provider error is reported and leaves the user unchanged; on success the user becomes the profile row of the authenticated id; `loading` is never touched |
| AuthStore.Store.SignOut | src/store/authStore.ts:31-34 | the user becomes none and `loading` is unchanged |
| AuthStore.Store.CheckAuth | src/store/authStore.ts:35-49 | no session gives no user; a session gives the session user's profile row; `loading` ends false on both paths |
| TicketDetails.StatusPatchIsFieldScoped | src/pages/TicketDetails.tsx:178-181 | the status update sets the status and leaves every other ticket field as it was |
| TicketDetails.AssignPatchIsFieldScoped | src/pages/TicketDetails.tsx:202-205 | the assignment sets `assigned_to` and leaves every other ticket field as it was |
| TicketDetails.PatchesCommute | src/pages/TicketDetails.tsx:176-205 | a status update and an assignment give the same row in either order |
| TicketDetails.UpdateWhereId | src/pages/TicketDetails.tsx:178-181 | `.update(...).eq('id', id)` keeps the set of tickets and changes no ticket with another id |
| TicketDetails.StatusDetailsNameTheStatus | src/pages/TicketDetails.tsx:185-194 | the status history text determines the status it records |
| TicketDetails.FindStaff | src/pages/TicketDetails.tsx:209 | `supportUsers.find` returns a staff entry with the requested id, and returns none only when no entry has it |
| TicketDetails.AssignRowNamesAssignee | src/pages/TicketDetails.tsx:209-218 | the assign history text is "Asignó el ticket a " followed by the full name of the first support user with the chosen id |
| TicketDetails.Step | src/pages/TicketDetails.tsx:145-223 | an action whose primary write failed (or an empty comment) changes no table; the history gains one row exactly when the primary write and the history insert both succeed; no ticket is created or removed |
| TicketDetails.HistoryRecordsAuditedAttempts | src/pages/TicketDetails.tsx:145-223 | over any run, the history is the old history followed by one row per attempt whose primary write and history insert succeeded, in call order |
| TicketDetails.EverySuccessIsAudited | src/pages/TicketDetails.tsx:183-194 | when no history insert fails, every successful change adds exactly one history row, in order, and nothing else does |
| TicketDetails.CommentsRecordStoredComments | src/pages/TicketDetails.tsx:145-157 | over any run, comments are append-only: the table gains exactly the comments whose insert succeeded, in order |
| TicketDetails.StepComments | src/pages/TicketDetails.tsx:147-157 | one attempt appends its comment row iff it is a non-empty comment whose insert succeeded |
| TicketDetails.LastChangeWins | src/pages/TicketDetails.tsx:176-223 | after any run the ticket's status and assignee are those of the last successful change of each kind, every other field (its creator included) is unchanged, and no other ticket changes |
| TicketDetails.Backend.UpdateTicket | src/pages/TicketDetails.tsx:178-183 | a failed update leaves the tables unchanged; a successful one patches the row with that id; comments and history are untouched |
| TicketDetails.Backend.InsertComment | src/pages/TicketDetails.tsx:147-157 | a successful insert appends the row; nothing else changes |
| TicketDetails.Backend.InsertHistory | src/pages/TicketDetails.tsx:159-168 | a successful insert appends the row; nothing else changes |
| TicketDetails.Page.constructor | src/pages/TicketDetails.tsx:49-54 | the page starts with no ticket, empty lists and `loading` true |
| TicketDetails.Page.Load | src/pages/TicketDetails.tsx:93-131 | the ticket becomes the fetched row; a missing comment or history list becomes empty; `loading` ends false |
| TicketDetails.Page.LoadSupportUsers | src/pages/TicketDetails.tsx:133-143 | the support users are exactly the users with role admin or support, in table order, or none after an error |
| TicketDetails.Page.UpdateTicketStatus | src/pages/TicketDetails.tsx:176-198 | the tables after the call are `Step` of the tables before it, for a status change by the current user |
| TicketDetails.Page.AssignTicket | src/pages/TicketDetails.tsx:200-223 | the tables after the call are `Step` of the tables before it, for an assignment by the current user, the text naming the support user found |
| TicketDetails.Page.SubmitComment | src/pages/TicketDetails.tsx:145-174 | the tables after the call are `Step` of the tables before it, for the draft comment; the form is reset only after a successful insert; the page's own lists are untouched |
| TicketDetails.Page.OnTicketChange | src/pages/TicketDetails.tsx:72-81 | a realtime ticket event replaces the whole ticket only when it carries a new row; comments and history are untouched |
| TicketDetails.Page.OnCommentInsert | src/pages/TicketDetails.tsx:82-89 | a realtime comment is appended after the existing comments; the ticket and the history are untouched |
| Login.PasswordAccepted | src/pages/Login.tsx:127-133 | the password field accepts exactly the passwords whose UTF-16 length is six or more: every password of six characters, and none of fewer than three |
| Login.ThreeEmojiPasswordAccepted | src/pages/Login.tsx:127-133 | a password of three emoji, three characters but six code units, is accepted |
| Login.FormAccepted | src/pages/Login.tsx:100-133 | the form reaches its submit handler iff the email matches the pattern and the password is at least six code units long |
| Login.PlainSignInSubmitted | src/pages/Login.tsx:100-133 | a plain address with a three-emoji password is submitted |
| Login.FilteredArticles | src/pages/Login.tsx:44-47 | exactly the articles whose title or content contains the term (ignoring case), in their original order |
| Login.EmptySearchKeepsAll | src/pages/Login.tsx:44-47 | an empty term keeps every article |
| Login.DisplayedArticles | src/pages/Login.tsx:49-51 | with "show all" the filtered articles; otherwise exactly the featured ones among them, in order |
| Login.Toggled | src/pages/Login.tsx:53-59 | a present id is removed everywhere, an absent id is appended at the end; the id is present afterwards iff it was absent before |
| Login.ToggleTwiceRestores | src/pages/Login.tsx:53-59 | toggling an id twice restores the same set of ids, and exactly the same list when the id was absent |
| Login.ToggleKeepsIdsDistinct | src/pages/Login.tsx:53-59 | a toggle never introduces a duplicate id |
| Login.Page.constructor | src/pages/Login.tsx:23-28 | the page starts with no error, not loading, nothing expanded |
| Login.Page.ToggleArticle | src/pages/Login.tsx:53-59 | the expanded list becomes the toggled list; nothing else changes |
| Login.Page.Submit | src/pages/Login.tsx:61-72 | a form failing its rules does nothing; otherwise the error is cleared, sign-in success opens the dashboard, failure shows the fixed invalid-credentials message, and `loading` ends false |
| NewTicket.FormAccepted | src/pages/NewTicket.tsx:55-103 | an accepted form has a title, a description and a category; a title and description with any of the select's categories are accepted |
| NewTicket.EveryCategoryOptionAccepted | src/pages/NewTicket.tsx:94-103 | each of the five category options, with a title and a description, gives an accepted form |
| NewTicket.InsertRow | src/pages/NewTicket.tsx:25-31 | the row carries the form back unchanged, is `open` whatever the form holds, and names the given creator |
| NewTicket.Page.constructor | src/pages/NewTicket.tsx:18-19 | the page starts not loading and has navigated nowhere |
| NewTicket.InsertRowKeepsForm | src/pages/NewTicket.tsx:25-31 | the inserted row carries the form's fields unchanged, has status `open`, and names the current user as creator; different forms give different rows |
| NewTicket.Page.Submit | src/pages/NewTicket.tsx:22-40 | an accepted form sends the open row created by `user?.id`; the ticket list opens only after a successful insert; `loading` ends false |
| NewUser.FormAccepted | src/pages/NewUser.tsx:81-135 | the form is accepted iff the name and department are non-empty, the email matches the pattern, and the password is eight or more UTF-16 code units long |
| NewUser.SevenCodeUnitsAreNotEnough | src/pages/NewUser.tsx:115-121 | a password of seven code units is refused even with every other field valid |
| NewUser.FourEmojiPasswordLongEnough | src/pages/NewUser.tsx:115-121 | four emoji, four characters but eight code units, pass the length rule |
| NewUser.ProfileRow | src/pages/NewUser.tsx:38-44 | the profile row has the new auth user's id and gives back every form field but the password |
| NewUser.ProfileRowKeepsFormButPassword | src/pages/NewUser.tsx:38-44 | two forms give the same profile row iff they differ at most in the password |
| NewUser.Page.constructor | src/pages/NewUser.tsx:18-19 | the page starts not loading and has navigated nowhere |
| NewUser.Page.Submit | src/pages/NewUser.tsx:23-64 | the profile row is sent iff the current user is an admin, the form is accepted and sign-up reported no error; it carries the new auth id and the form's fields; the user page opens only when both steps succeed; `loading` ends false |
| KnowledgeBase.AllIsNotACategory | src/pages/KnowledgeBase.tsx:12-21 | "all" is none of the five distinct category ids |
| KnowledgeBase.CategoryConstraint | src/pages/KnowledgeBase.tsx:37-39 | "all" adds no constraint; any other value constrains to exactly that category |
| KnowledgeBase.Selected | src/pages/KnowledgeBase.tsx:28-41 | the query returns exactly the table rows of the selected category (all rows for "all"), in table order |
| KnowledgeBase.AllSelectsEverything | src/pages/KnowledgeBase.tsx:37-39 | with "all" selected the query returns the whole table |
| KnowledgeBase.FilteredArticles | src/pages/KnowledgeBase.tsx:51-54 | exactly the fetched articles whose title or content contains the term (ignoring case), in order |
| KnowledgeBase.EmptySearchKeepsAll | src/pages/KnowledgeBase.tsx:51-54 | an empty term keeps every fetched article |
| KnowledgeBase.Page.constructor | src/pages/KnowledgeBase.tsx:9-12 | the page starts with no articles, loading, and "all" selected |
| KnowledgeBase.Page.FetchArticles | src/pages/KnowledgeBase.tsx:27-49 | on success the list becomes the selected rows; on an error it is unchanged; `loading` ends false either way |
| KnowledgeBase.Page.SelectCategory | src/pages/KnowledgeBase.tsx:23-25 | choosing a category refetches with it |
| Users.FilteredUsers | src/pages/Users.tsx:55-63 | a user is kept iff the search (full name or email, ignoring case), the market condition and the status condition all hold; `'all'` imposes no condition; order is preserved |
| Users.MarketOptionSelectsItsUsers | src/pages/Users.tsx:55-106 | with an empty search, choosing one of the three market options keeps exactly the users of that market |
| Users.DefaultFiltersKeepAll | src/pages/Users.tsx:19-21 | with the initial filters (empty term, all markets, all statuses) every user is kept |
| Users.FilteredUsersAsWritten | src/pages/Users.tsx:55-63 | the filter as written fails iff some user has no `name`; otherwise it keeps exactly the users whose name or email matches and whose market and status match, in order |
| Users.TableRowsCrashTheFilter | src/pages/Users.tsx:56 | on rows as the table returns them (no `name`), the list as written fails whenever there is at least one user |
| Users.OneRowShowsTheCrash | src/pages/Users.tsx:56 | one concrete table row: the code as written fails, and the intended search finds the user by name |
| Users.Render | src/pages/Users.tsx:25-120 | anyone but a signed-in admin gets the restricted notice; for an admin the render throws iff some user has no `name`, and otherwise shows the filter panel holding the current term, market and status, with no list drawn |
| Users.AdminPageFailsOnTableRows | src/pages/Users.tsx:25-63 | an admin whose table has rows, none with a `name`, gets the exception instead of the page |
| Users.RenderCorrected | src/pages/Users.tsx:25-120 | with the search on `full_name` the admin's render never throws, and the list it computes holds exactly the users the three filters keep |
| Users.RenderCorrectedAgreesWhereNamesExist | src/pages/Users.tsx:55-63 | where every row's `name` equals its full name, the render as written and the corrected one agree |
| DashboardLayout.VisibleItems | src/components/layout/DashboardLayout.tsx:23-67 | an admin sees all five items in declaration order; anyone else sees Dashboard, Tickets and Knowledge Base, in order |
| DashboardLayout.NavigationPathsDistinct | src/components/layout/DashboardLayout.tsx:23-29 | the declared paths are pairwise distinct |
| DashboardLayout.IsActive | src/components/layout/DashboardLayout.tsx:69 | an item is active only for a pathname of its path's length; a longer pathname that begins with the item's path does not activate it |
| DashboardLayout.UndeclaredPathHighlightsNothing | src/components/layout/DashboardLayout.tsx:66-69 | a pathname no item declares highlights no visible item |
| DashboardLayout.NewItemFormsHighlightNothing | src/components/layout/DashboardLayout.tsx:66-69 | on the new-ticket and new-user forms no item is highlighted, whoever is signed in |
| DashboardLayout.AtMostOneActiveIn | src/components/layout/DashboardLayout.tsx:69 | in a list with distinct paths, at most one item equals the current pathname |
| DashboardLayout.AtMostOneActive | src/components/layout/DashboardLayout.tsx:66-69 | for any user and pathname at most one visible item is active |
| DashboardLayout.AdminPagesAreTheLastTwo | src/components/layout/DashboardLayout.tsx:23-29 | only the two admin-only items lead to the users and settings pages |
| DashboardLayout.AdminItemsFollowPageGates | src/components/layout/DashboardLayout.tsx:27-67 | the users and settings pages are offered exactly to the users their own admin gates admit |
| DashboardLayout.Layout.constructor | src/components/layout/DashboardLayout.tsx:32 | the sidebar starts closed |
| DashboardLayout.Layout.ToggleSidebar | src/components/layout/DashboardLayout.tsx:46 | the menu button flips the sidebar |
| DashboardLayout.Layout.CloseSidebar | src/components/layout/DashboardLayout.tsx:122 | the overlay closes the sidebar |
| DashboardLayout.Layout.ClickItem | src/components/layout/DashboardLayout.tsx:81-84 | a click opens the item's path and closes the sidebar |
| DashboardLayout.Layout.SignOut | src/components/layout/DashboardLayout.tsx:37-40 | the store signs out (no user, loading untouched) and then the login page opens |
| Settings.DecimalValue | src/pages/Settings.tsx:124-129 | the SLA text has a number iff it is a non-empty run of decimal digits |
| Settings.DecimalText | src/pages/Settings.tsx:124-129 | the numeral of a number is a non-empty run of decimal digits |
| Settings.DecimalRoundTrip | src/pages/Settings.tsx:124-129 | reading the numeral of any number gives that number back |
| Settings.FormAccepted | src/pages/Settings.tsx:77-129 | accepted iff the portal name is non-empty and the SLA text is a number within 1..72 |
| Settings.SlaBoundsAreInclusive | src/pages/Settings.tsx:124-129 | with a portal name, the numeral of `n` is accepted iff 1 <= n <= 72 |
| Settings.BlankSlaRefused | src/pages/Settings.tsx:124-129 | a blank SLA field is refused |
| Settings.UpsertRow | src/pages/Settings.tsx:28-34 | the upserted row has id 1, gives back the form's values as delivered, and records the saving user and time |
| Settings.UpsertRowKeepsForm | src/pages/Settings.tsx:28-34 | every save targets the same row, and two saves write the same row iff form, user and time all agree |
| Settings.AcceptedRowHasBoundedSla | src/pages/Settings.tsx:124-129 | an accepted form's row carries an SLA text whose number lies within 1..72 |
| Settings.Page.constructor | src/pages/Settings.tsx:20 | the page starts not loading |
| Settings.Page.Submit | src/pages/Settings.tsx:24-54 | only an admin's accepted form sends the row; the page reloads only after an upsert without error; `loading` ends false |

## Left out

- Query execution by the hosted database is not modelled: selects, server-side ordering, `.in(...)` and joins on related rows. Each query's answer is a parameter.
- Realtime subscriptions are not modelled: subscribe and unsubscribe, asynchronous delivery, and interleaving with user actions. Only the two handlers' effects are modelled.
- The parallel loads (`Promise.all`) are modelled as one step that receives all three answers.
- `src/pages/Dashboard.tsx` is not part of this model. Its counts come from the database, and "today" comes from the wall clock.
- Rendering is not modelled (JSX, styles, date formatting). Navigation is the recorded target path, and `window.location.reload` is a flag.
- The form library's machinery is not modelled. Only the declared rules are modelled, and a form that fails them never reaches its submit handler.
- The browser's own `type="email"`, `type="url"` and `type="color"` checks are left out.
- `toLowerCase` is ASCII-only. Unicode case mapping is not modelled.
- NewTicket.Page.Submit: `loading` is true only while the insert is pending. The model states only the state before and after the call.
- Settings.FormAccepted: the SLA text is read as a number only when it is a run of decimal digits. The fractional and exponent spellings a number input also delivers (`1.5`, `1e1`) are refused by the model, and no conversion of the text to a number or of the textareas to lists is modelled, because the page performs none.
- AuthStore.SingleById: when several rows share an id, `.single()` reports an error and yields null. The model returns none in that case, and this is not stated separately.
- TicketDetails.Page.AssignTicket: choosing the empty "unassigned" option writes the empty string as the assignee. The model covers any id string, and the empty one is not singled out.
- The user page draws no user list and offers no editing or deletion. `Edit2` and `Trash2` are imported but never used, so there is nothing of them to model.
- The help-article fetch and the article detail views are not modelled. They are store calls or rendering with no page logic of their own.
- The page effect that runs after an early return on the user page (a hook-order issue) is not modelled.

## Findings

| source | as written | input that shows it | evidently intended | confidence | as-written member | corrected member |
|---|---|---|---|---|---|---|
| src/pages/Users.tsx:56 | the search reads `user.name.toLowerCase()`, but neither the `User` type nor the `users` table has `name`, so the filter throws on the first row | any table row, e.g. the one in `OneRowShowsTheCrash` (full name "Ana", no `name`) | search the user's `full_name` (null read as empty) or email | not executed; high: the property is absent from both the type and the table | Users.FilteredUsersAsWritten | Users.FilteredUsers |
