# Dealflow CRM core, modelled in Dafny

Dealflow is a multi-dealership CRM. An Express server (`server.ts`) keeps its
data in SQLite (`src/db/schema.ts`). Every `/api` route except login and the
lead webhook sits behind a JWT `authenticate` middleware. Some routes also
sit behind a role allow-list (`authorize`). A socket.io channel lets clients
join a lead's room and post messages to it. The React client keeps the
signed-in user in `localStorage` (`src/App.tsx`). It shows a role-filtered
sidebar with a notification badge (`src/components/Layout.tsx`) and a
staff-management page (`src/pages/Users.tsx`).

The model has these modules:

- `Store` is the database: seven tables of rows and the constraints SQLite
  enforces on every insert (NOT NULL, UNIQUE, FOREIGN KEY). It also models
  column affinity, the column defaults and AUTOINCREMENT ids (`IdsDense`).
  `CURRENT_TIMESTAMP` is a counter, `clock`.
- `Schema` models `initDb`. `InitSpec` is what one run does.
  `Schema.Database` runs it statement by statement and is proved equal to
  `InitSpec`. Lemmas prove that a run seeds every role once, leaves a super
  admin, seeds the default dealership, and that a second run changes nothing.
- `Auth` models the middleware and the allow-list of every route.
- `Queries` models login and the GET routes as functions of the tables and the
  caller's claims.
- `Api` models the write routes and the socket handlers. Each write is a
  pure `Outcome` function. The `Api.Server` class holds the database and the
  socket rooms, and its methods are proved to reach exactly those outcomes.
- `UsersPage`, `Layout` and `AppShell` model the client logic. Component
  state becomes fields of a class; derived values become functions.

Behaviour of the code that the model keeps, and that its lemmas make visible:

- A principal or an admin may create a `super_admin` user. That user's token
  then passes every super_admin-only route (`Api.CreatorMayGrantSuperAdmin`).
- Creating a lead with a super_admin token (no dealership) violates NOT NULL,
  and the handler throws.
- Login does not look at the user's `status`.
- The lead communications route does not check the caller's dealership.
- The user list returns every user column, the password hash included.
- `send-message` broadcasts before it inserts. The broadcast goes out even
  when the insert then fails.
- `GET /api/users` selects no `location_ids`. So editing a listed user always
  starts with no location selected, and submitting that form unchanged is
  refused by the page (`UsersPage.EditedServerUserHasNoLocations`). The page
  sends `PUT /api/users/:id`, which `server.ts` does not define.
- `/dealerships`, `/locations` and `/users` are routed without a client-side
  role check. The Dashboard sidebar entry sends everyone but a super_admin on
  to `/leads`.
- The saved user is restored in an effect that runs after the first render.
  That render has no user, so the layout routes redirect to `/login`, and the
  login route then sends the restored user to the initial route. A reload of
  a deep link such as `/leads/7` therefore ends on `/` or `/leads`
  (`AppShell.ReloadLandsOnInitialRoute`).

## Model

| member | source | states |
|---|---|---|
| Base.OrElse | server.ts:288 | `s \|\| fallback`: the string when it is present and non-empty, the fallback otherwise |
| Seqs.Filter | src/components/Layout.tsx:48 | keeps exactly the elements satisfying `p`, at most as many, a sub-multiset of the input |
| Seqs.FilterConcat | src/components/Layout.tsx:48 | filtering distributes over concatenation, so kept elements stay in input order |
| Seqs.FilterKeepsAll | src/pages/Users.tsx:121-124 | filtering by a predicate every element satisfies returns the list unchanged |
| Seqs.FilterIdempotent | src/pages/Users.tsx:121-124 | filtering twice by the same predicate is filtering once |
| Seqs.FilterCount | src/pages/Users.tsx:111 | each element keeps all its copies when it satisfies `p` and none otherwise |
| Seqs.FilterDropsOne | src/pages/Users.tsx:111 | filtering out one element between two parts the filter keeps whole leaves the two parts, in order |
| Seqs.FilterPermutation | server.ts:209-213 | reordering the input changes neither what a filter keeps nor how many |
| Seqs.FilterPartition | src/components/Layout.tsx:50 | the elements kept by `p` and by its negation add up to the whole list |
| Seqs.Take | server.ts:264 | `LIMIT n`: at most `n` rows, the first ones, all rows when there are at most `n` |
| Seqs.InsertBy | server.ts:184 | inserting into a sorted list keeps it sorted and adds exactly one copy of the element |
| Seqs.SortedCons | server.ts:184 | a head no larger than the rest keeps a sorted list sorted |
| Seqs.SortBy | server.ts:184 | `ORDER BY`: the result is sorted by the key and is a permutation of the input |
| Seqs.TakeSortedSmallest | server.ts:263-264 | after `ORDER BY ... LIMIT n` no row left out has a smaller key than a row kept |
| Seqs.TakeSorted | server.ts:263-264 | the first `n` rows of a sorted list are sorted and come from the list, none more often than there |
| Seqs.SortedPrefix | server.ts:263-264 | `ORDER BY key LIMIT n`: exactly `n` rows when more qualify, all when not, sorted, a sub-multiset of the input, and no row left out with a smaller key than a row kept |
| Text.Decimal | server.ts:58 | `${n}` is a non-empty run of digits, a single digit exactly below ten |
| Text.DecimalRoundTrip | src/pages/Users.tsx:102 | `Number` of the decimal rendering of `n` is `n` |
| Text.DecimalInjective | server.ts:58 | different numbers render differently |
| Text.ToNumber | src/pages/Users.tsx:102 | a plain digit run reads as its value; any other text is not a plain integer |
| Text.Split | src/pages/Users.tsx:102 | `split(sep)` yields at least one piece, and no piece holds the separator |
| Text.SplitNoSeparator | server.ts:34 | a string without the separator splits into itself alone |
| Text.SplitAtSeparator | server.ts:34 | a separator after a separator-free prefix splits off exactly that prefix |
| Text.SplitJoin | src/pages/Users.tsx:102 | splitting a joined list gives it back when no piece holds the separator |
| Text.Lower | src/pages/Users.tsx:122-123 | `toLowerCase` keeps the length and lowers each ASCII letter, nothing else |
| Text.Contains | src/pages/Users.tsx:122-123 | `includes` is true exactly when the query occurs at some position |
| Text.ContainsEmpty | src/pages/Users.tsx:121-124 | every string includes the empty string |
| Store.Fresh | src/db/schema.ts:35-113 | the freshly created tables satisfy every constraint and have the current schema's nullable columns |
| Store.IntegerAffinity | src/db/schema.ts:91-92 | text that is a plain digit run, and an integral REAL, are stored as that integer; in this model any other value is stored as bound |
| Store.DecimalAffinity | server.ts:170 | a number's decimal text in an INTEGER column is that number |
| Store.TextAffinity | src/db/schema.ts:93-95 | an integer in a TEXT column is stored as its decimal text, a REAL as its digits and '.0'; NULL and text are kept |
| Store.RealText | src/db/schema.ts:93-95 | the text of an integral REAL ends in '.0' and its digits read back as the value |
| Store.RealTextNotDigits | src/db/schema.ts:93-95 | the text of a REAL is never a plain digit run |
| Store.InsertDealership | src/db/schema.ts:36-40 | succeeds exactly when the name is not NULL; appends the row with the next id and the current time; nothing else changes; consistency is kept |
| Store.InsertLocation | src/db/schema.ts:42-48 | succeeds exactly when the dealership exists and the name is given; appends one row; nothing else changes; consistency is kept |
| Store.InsertRoleOrIgnore | src/db/schema.ts:117 | a name already present changes nothing; a new name is appended with the next id; consistency is kept |
| Store.InsertUser | src/db/schema.ts:55-68 | succeeds exactly when the foreign keys hold, name and email are given and the email is unused; appends one 'active' row; consistency is kept |
| Store.InsertLead | src/db/schema.ts:70-87 | succeeds exactly when the dealership exists, the location is NULL or exists and both names are given; status defaults to 'new'; consistency is kept |
| Store.InsertCommunication | src/db/schema.ts:89-99 | succeeds exactly when lead_id reads as an existing lead, user_id is NULL or an existing user, and type and content are text; values are stored after affinity |
| Store.InsertTask | src/db/schema.ts:101-112 | succeeds exactly when the lead is NULL or exists, the user exists and the title is given; status defaults to 'pending' |
| Store.LocationAppendKeeps | src/db/schema.ts:42-48 | appending a location whose dealership exists keeps every constraint |
| Store.UserAppendKeeps | src/db/schema.ts:55-68 | appending a user with valid keys and an unused email keeps every constraint |
| Store.LeadAppendKeeps | src/db/schema.ts:70-87 | appending a lead with valid keys keeps every constraint |
| Store.CommunicationAppendKeeps | src/db/schema.ts:89-99 | appending a communication with valid keys keeps every constraint |
| Store.FindRoleByName | server.ts:107 | the role found has this name; none is found exactly when no row has it |
| Store.FindRoleById | server.ts:84 | the role found has this id; none is found exactly when no row has it |
| Store.FindUserByEmail | server.ts:84 | the user found has this email; none is found exactly when no row has it |
| Store.FindUserById | server.ts:262 | the user found has this id; none is found exactly when no row has it |
| Store.FindDealershipById | server.ts:123 | the dealership found has this id; none is found exactly when no row has it |
| Store.FindLeadById | server.ts:170 | the lead found has this id; none is found exactly when no row has it |
| Store.FindLeadDense | server.ts:170 | with AUTOINCREMENT ids, lead `k` is row `k` when `1 <= k <= |leads|`, and there is none otherwise |
| Store.FindShifted | server.ts:170 | the induction step of `FindLeadDense`: ids numbered from an offset find row `id - 1 - offset` |
| Schema.Migrate | src/db/schema.ts:16-33 | an old schema (a NOT NULL column) is dropped to empty tables; otherwise nothing changes; the result never needs migrating again |
| Schema.SeedRoles | src/db/schema.ts:115-118 | only roles are added, the old roles stay a prefix, and consistency is kept |
| Schema.SeedRolesStep | src/db/schema.ts:118 | seeding one more name is one more `INSERT OR IGNORE` |
| Schema.HasRoleKept | src/db/schema.ts:115-118 | a role stays present when roles are appended |
| Schema.SeedRolesPresent | src/db/schema.ts:115-118 | after seeding, every seeded name has a role row |
| Schema.SeedRolesIdle | src/db/schema.ts:117 | seeding names that are all present changes nothing |
| Schema.CountUsersWithRole | src/db/schema.ts:122 | the count is zero exactly when no user holds the role |
| Schema.SeedSuperAdmin | src/db/schema.ts:120-128 | only users change, by appending; an existing super admin leaves everything as it is; a completed step leaves a super admin |
| Schema.SeedLeadRows | src/db/schema.ts:143-146 | appends one lead per sample, in order, to the given dealership with the sample's status |
| Schema.SeedDefaultDealership | src/db/schema.ts:130-147 | with an existing dealership nothing changes; otherwise, once complete, 'Default Motors' is dealership 1 with its principal, and exactly one user is added |
| Schema.SeedPrincipalAndLeads | src/db/schema.ts:136-146 | once complete the dealership has the principal user, exactly one user is added, and on an empty lead table the three sample leads |
| Schema.InitSpec | src/db/schema.ts:13-148 | a run on a consistent database leaves it consistent |
| Schema.PresentUniqueOnce | src/db/schema.ts:52 | with UNIQUE names, a present role occurs exactly once |
| Schema.HasSuperAdminKept | src/db/schema.ts:120-128 | a super admin user stays one when users are appended |
| Schema.InitKeepsRows | src/db/schema.ts:35-147 | without a migration no row is lost; with a dealership present no dealership or lead is added |
| Schema.InitAfterMigration | src/db/schema.ts:22-33 | a migrating run is the run on an empty file |
| Schema.InitSeedsRolesOnce | src/db/schema.ts:115-118 | after a run each of the four role names has exactly one row |
| Schema.InitLeavesSuperAdmin | src/db/schema.ts:120-128 | a completed run leaves a user with the super_admin role |
| Schema.SeedSuperAdminInserts | src/db/schema.ts:124-127 | 'super@dealflow.com' is appended without a dealership exactly when nobody is super admin |
| Schema.SeedLeadRowsFromEmpty | src/db/schema.ts:143-146 | on an empty lead table the samples become leads 1 to 3 with statuses new, contacted, new |
| Schema.InitSeedsDefaultDealership | src/db/schema.ts:130-147 | a completed run on a database without dealerships leaves 'Default Motors', its principal as its only user, and the three sample leads |
| Schema.DefaultPrincipalAlone | src/db/schema.ts:131-140 | when no existing user has a dealership, the principal appended by the seeding is the only user of dealership 1 |
| Schema.PrincipalLastAlone | src/db/schema.ts:139-140 | a principal appended after users without a dealership is the dealership's only user |
| Schema.InitCompletesOnEmpty | src/db/schema.ts:13-148 | a run on an empty database completes |
| Schema.RolesSeededOnEmpty | src/db/schema.ts:115-118 | seeding an empty database gives both roles the later steps need |
| Schema.SuperAdminSeededOnEmpty | src/db/schema.ts:120-128 | on a database without users the super admin step completes and leaves the principal email free |
| Schema.SeedDefaultDealershipCompletes | src/db/schema.ts:130-147 | with no dealership, the principal role present and the email free, the dealership step completes |
| Schema.InitIdempotent | src/db/schema.ts:13-148 | a completed run is a fixed point: a second run changes nothing and completes |
| Schema.Database.constructor | src/db/schema.ts:9 | the handle starts on a consistent database |
| Schema.Database.InitDb | src/db/schema.ts:13-148 | the run leaves exactly the tables and the completion flag of `InitSpec` |
| Schema.Database.DropLegacyTables | src/db/schema.ts:16-33 | the tables become `Migrate` of the old ones |
| Schema.Database.SeedRoleRows | src/db/schema.ts:115-118 | the loop leaves exactly `SeedRoles` of the four names |
| Schema.Database.SeedSuperAdminRow | src/db/schema.ts:120-128 | leaves exactly `SeedSuperAdmin` of the old tables |
| Schema.Database.SeedDefaultDealershipRows | src/db/schema.ts:130-147 | leaves exactly `SeedDefaultDealership` of the old tables |
| Schema.Database.InsertSeedLeads | src/db/schema.ts:143-146 | the loop leaves exactly `SeedLeadRows` of the three samples |
| Auth.Reply.Status | server.ts:29-42 | an escaped exception answers 500 |
| Auth.BearerToken | server.ts:34 | `split(' ')[1]` is undefined without a space and never holds a space |
| Auth.BearerTokenOfHeader | server.ts:34 | `<scheme> <token>` yields the token |
| Auth.Authenticate | server.ts:30-42 | a missing or empty header is 401 'No token provided'; a missing or unverifiable token is 401 'Invalid token'; otherwise the decoded claims |
| Auth.Authorize | server.ts:44-51 | admits exactly the listed roles, with the same claims; otherwise 403 'Forbidden' |
| Auth.Guard | server.ts:95 | the chain refuses in a fixed order (no header, bad token, role); an admitted role is in the allow-list |
| Auth.RouteAdmission | server.ts:95-281 | only super_admin passes the dealership routes and location creation; only principal or admin passes user creation; other routes need only a valid token |
| Auth.BearerAdmits | server.ts:30-51 | `Bearer <token>` with a verifying token and an allowed role is admitted with its claims |
| Queries.LoginRow | server.ts:84 | the row found has this email and an existing role with that name; none exactly when no such user has a role row |
| Queries.Login | server.ts:82-92 | 401 'Invalid credentials' exactly for an unknown email or a wrong password; a missing password crashes; success signs the user's id, role and dealership |
| Queries.LoginAsUser | server.ts:82-92 | in a consistent database a user's own email and password log in, with their role's name |
| Queries.ListDealerships | server.ts:95-98 | every dealership, in table order |
| Queries.ListRoles | server.ts:164-167 | every role, in table order |
| Queries.LocationsWithDealership | server.ts:123 | each row pairs a location with its dealership's name; all locations, in order, when every dealership exists |
| Queries.LocationsOf | server.ts:125 | exactly the locations of the dealership, none for NULL, without a dealership name |
| Queries.LocationsOfOnce | server.ts:125 | one row per location of the dealership, each once, in table order |
| Queries.LocationsConsStep | server.ts:125 | a location's row in front of matching rows keeps them matching |
| Queries.LocationDealershipsExist | src/db/schema.ts:47 | in a consistent database every location's dealership exists |
| Queries.ListLocations | server.ts:120-128 | super_admin: every location in order, each with its dealership's name; others: each location of their token's dealership exactly once, in table order, without a dealership name |
| Queries.AllUserRows | server.ts:140 | each row is a user with its role name and dealership name; all users, in order, when every role exists |
| Queries.UserRowsOf | server.ts:143 | exactly the users of the dealership that have a role, none for NULL |
| Queries.UserRowsOfOnce | server.ts:143 | one row per user of the dealership that has a role, each once, in table order |
| Queries.UsersOfConsStep | server.ts:143 | a row in front of rows matching their users matches the user in front |
| Queries.UserRolesExist | src/db/schema.ts:67 | in a consistent database every user's role exists |
| Queries.ListUsers | server.ts:138-145 | every row carries its user's role name; super_admin: every user in order with the dealership name; others: each user of their token's dealership exactly once, in table order, without a dealership name |
| Queries.LeadByParam | server.ts:170 | the lead found is the one whose id the parameter reads as, and nothing is found only when no lead has that id |
| Queries.GetLead | server.ts:169-179 | 404 'Lead not found' when there is no such lead, then 403 'Forbidden' across dealerships for non-super_admins, else the lead |
| Queries.GetLeadByNumber | server.ts:169-179 | lead `n` by its decimal id: 404 outside `1..|leads|`, otherwise row `n` for an authorised caller |
| Queries.LeadsOf | server.ts:186 | exactly the leads of the dealership, none for NULL |
| Queries.ListLeads | server.ts:181-189 | newest first; a permutation of all leads for super_admin, of the dealership's leads for others |
| Queries.LeadCommunications | server.ts:198-201 | oldest first; exactly the communications whose lead id the parameter reads as, none more often than in the table |
| Queries.GetStats | server.ts:204-223 | total leads is the size of the caller's lead list and active deals are exactly its leads whose status is not 'closed'; unread messages never exceed all communications and, for super_admin, are the inbound ones; the response time is the constant '12m' |
| Queries.TaskRows | server.ts:230-232 | one row per task, in order, with its lead's names or NULL names |
| Queries.ListTasks | server.ts:226-245 | undated first, then by due date; all tasks for super_admin; otherwise exactly the tasks on the dealership's leads or the caller's own, none more often than in the table |
| Queries.MessageRows | server.ts:259-272 | exactly the communications with an existing lead and sender, scoped to the dealership for others |
| Queries.MessageRowsOnce | server.ts:259-272 | one row per communication of the feed, each once, in table order |
| Queries.FeedConsStep | server.ts:259-272 | a communication and its row in front of matching lists keep them matching |
| Queries.ListMessages | server.ts:255-278 | at most 50 rows, newest first, drawn from the qualifying rows without repeating any; all rows when at most 50 qualify and exactly 50 when more do; no row left out is newer than one kept |
| Api.CreateDealershipOutcome | server.ts:100-117 | succeeds exactly when both inserts and the role lookup succeed, adding the dealership and its principal; any failure rolls back to a 500 |
| Api.RoleFoundAtId | server.ts:107 | with dense ids the role found by name is row `id - 1` |
| Api.CreatedPrincipalLogsIn | server.ts:100-117 | the new principal logs in with the form's credentials, as principal of the new dealership |
| Api.CreatedDealershipListed | server.ts:95-117 | a new dealership is the last row of the dealership list; roles are untouched |
| Api.CreateLocationOutcome | server.ts:130-135 | succeeds exactly when the dealership exists and a name is given, returning the new id; otherwise 500 with nothing changed |
| Api.CreatedLocationListed | server.ts:120-135 | a new location is listed to its dealership's members and to super_admin as the last row |
| Api.CreateUserOutcome | server.ts:147-162 | an admin asking for principal gets 403 and nothing else does; success inserts into the caller's dealership; failures change nothing |
| Api.CreatedUserLogsIn | server.ts:147-162 | a created user logs in with the form's credentials, with the form's role and the creator's dealership |
| Api.CreatorMayGrantSuperAdmin | server.ts:150-159 | a principal or admin can create a super_admin who then logs in as super_admin |
| Api.CreateLeadOutcome | server.ts:191-196 | succeeds exactly when the token's dealership exists, the location is absent or exists and both names are given; the lead is 'new' and unassigned; otherwise 500 with nothing changed |
| Api.CreatedLeadVisible | server.ts:169-196 | the creator opens the new lead by the returned id and finds it in the lead list |
| Api.CreateTaskOutcome | server.ts:247-252 | succeeds exactly when the lead is NULL or exists, the caller exists and a title is given; status 'pending' |
| Api.CreatedTaskListed | server.ts:226-252 | the creator finds the new task in their task list |
| Api.WebhookOutcome | server.ts:281-293 | 400 'No dealership configured' without dealerships; otherwise 201 and a lead of the first dealership, source defaulting to 'Webhook' |
| Api.WebhookLeadReachesFirstDealership | server.ts:281-293 | in a consistent database a webhook lead with both names is accepted into dealership 1 and listed to its members |
| Api.JsOr | server.ts:70 | `v \|\| fallback` picks `v` exactly when it is truthy |
| Api.Bind | server.ts:70 | every value but a boolean can be bound: undefined and null as NULL, a number as a REAL, a string as TEXT |
| Api.RoomName | server.ts:58 | `lead-${id}` is longer than the prefix unless the id is the empty string |
| Api.RoomOfNumberText | server.ts:58 | a number and its decimal text name the same room |
| Api.RoomNamesDistinct | server.ts:58 | different lead numbers name different rooms |
| Api.Joined | server.ts:57-59 | joining adds the socket to that room and changes no other room |
| Api.Broadcast | server.ts:61-65 | a delivery happens exactly when lead id and content are truthy; it goes to the room's sockets as 'new-message' with the payload unchanged |
| Api.StoreMessage | server.ts:67-73 | only communications change; a row is appended exactly when the lead id and content are truthy, no value is a boolean, the lead exists and the user is NULL or exists; the row is the lead, user, type (default 'internal'), 'outbound', the content and the current time; falsy input stores nothing; consistency is kept |
| Api.StoreMessageRecordsNote | server.ts:61-74 | a message for an existing lead with no user or type is stored as an 'internal' outbound note |
| Api.StoreMessageNumericContent | server.ts:67-73 | a numeric content is stored as its text with '.0' (5 as '5.0'), not as its plain digits |
| Api.JoinedSocketReceives | server.ts:57-65 | a socket in a lead's room receives every later message for that lead, by number or by text |
| Api.Server.constructor | server.ts:15-25 | the server starts on a consistent database with no rooms |
| Api.Server.CreateDealership | server.ts:100-117 | the transaction with snapshot and rollback reaches exactly `CreateDealershipOutcome` |
| Api.Server.CreateLocation | server.ts:130-135 | reaches exactly `CreateLocationOutcome`; rooms unchanged |
| Api.Server.CreateUser | server.ts:147-162 | reaches exactly `CreateUserOutcome`; rooms unchanged |
| Api.Server.CreateLead | server.ts:191-196 | reaches exactly `CreateLeadOutcome`; rooms unchanged |
| Api.Server.CreateTask | server.ts:247-252 | reaches exactly `CreateTaskOutcome`; rooms unchanged |
| Api.Server.ReceiveWebhook | server.ts:281-293 | reaches exactly `WebhookOutcome`; rooms unchanged |
| Api.Server.JoinLead | server.ts:57-59 | the rooms become `Joined`; the tables are unchanged |
| Api.Server.SendMessage | server.ts:61-74 | delivers `Broadcast` over the rooms as they were and stores `StoreMessage`; rooms unchanged |
| UsersPage.FromRow | src/pages/Users.tsx:38 | a listed user keeps the row's id, name, email and role, and never has `location_ids` |
| UsersPage.ToggleLocation | src/pages/Users.tsx:107-114 | a selected id is removed, every copy, with the rest kept; an unselected id is appended |
| UsersPage.ToggleOffKeepsOrder | src/pages/Users.tsx:111 | removing an id that occurs once, at any position, keeps the others in order |
| UsersPage.ToggleTwice | src/pages/Users.tsx:107-114 | toggling an unselected id twice gives the selection back |
| UsersPage.FilteredRoles | src/pages/Users.tsx:116-119 | a principal is offered every role except super_admin and principal; anyone else none |
| UsersPage.FilteredRolesKeepOrder | src/pages/Users.tsx:116-119 | the offered roles keep the order of the role list |
| UsersPage.FilteredUsers | src/pages/Users.tsx:121-124 | exactly the users whose lowercased name or email contains the lowercased query |
| UsersPage.FilteredUsersKeepOrder | src/pages/Users.tsx:121-124 | the matching users keep the order of the user list |
| UsersPage.EmptyQueryKeepsAll | src/pages/Users.tsx:121-124 | an empty search lists everyone, in order |
| UsersPage.CreateButtonWithinServerPolicy | src/pages/Users.tsx:126 | whoever sees the add button is allowed by the server to create users and is not shown the restricted view |
| UsersPage.ParseLocationIds | src/pages/Users.tsx:102 | a missing or empty field gives no ids; otherwise one `Number` per comma-separated piece |
| UsersPage.Renderings | src/pages/Users.tsx:102 | the decimal text of each id, in order |
| UsersPage.ParseJoinedIds | src/pages/Users.tsx:102 | ids stored comma-separated parse back to the same ids |
| UsersPage.EditForm | src/pages/Users.tsx:95-105 | the edit form holds the user's name, email and role, the parsed ids and an empty password |
| UsersPage.SubmitTarget | src/pages/Users.tsx:56-57 | PUT to `/api/users/<id>` when editing, POST to `/api/users` otherwise, with the form as the body |
| UsersPage.Page.constructor | src/pages/Users.tsx:12-22 | a closed modal, an empty form, not submitting, no error |
| UsersPage.Page.OpenNewUser | src/pages/Users.tsx:147-151 | a blank form for a new user in an open modal |
| UsersPage.Page.OpenEditUser | src/pages/Users.tsx:95-105 | the user being edited, its form, an open modal |
| UsersPage.Page.ToggleLocationOf | src/pages/Users.tsx:107-114 | only the form's selected ids change, by `ToggleLocation` |
| UsersPage.Page.BeginSubmit | src/pages/Users.tsx:48-67 | with no location, the error is set and nothing is sent; otherwise submitting, error cleared, and the `SubmitTarget` request sent |
| UsersPage.Page.FinishSubmit | src/pages/Users.tsx:69-83 | success closes and resets; refusal shows the server's error or the default; an exception shows the connection error; submitting ends |
| UsersPage.EditedServerUserHasNoLocations | src/pages/Users.tsx:95-105 | a user as the server lists them opens for editing with no location selected |
| Layout.Navigation | src/components/Layout.tsx:41-48 | exactly the entries whose roles include the user's, never more than the table holds |
| Layout.FilterSix | src/components/Layout.tsx:48 | filtering a six-entry table is filtering each entry |
| Layout.FilterOne | src/components/Layout.tsx:48 | filtering one entry keeps it exactly when it qualifies |
| Layout.NavigationSteps | src/components/Layout.tsx:41-48 | the sidebar is the table filtered one entry at a time |
| Layout.FilterKeep | src/components/Layout.tsx:48 | filtering one entry for a role keeps it exactly when the role is listed |
| Layout.NavigationOfSuperAdmin | src/components/Layout.tsx:41-48 | a super_admin sees Dashboard, Dealerships and Settings |
| Layout.NavigationOfPrincipal | src/components/Layout.tsx:41-48 | a principal sees Dashboard, Users, Leads, Communication and Settings |
| Layout.NavigationOfStaff | src/components/Layout.tsx:41-48 | an admin or user sees Dashboard, Leads, Communication and Settings |
| Layout.NavigationOfUnknownRole | src/components/Layout.tsx:41-48 | an unknown role sees no entry |
| Layout.UnreadCount | src/components/Layout.tsx:50 | unread and read notifications add up to all of them; the count is zero exactly when none is unread |
| Layout.BadgeIffUnread | src/components/Layout.tsx:145 | the badge shows exactly when some notification is unread |
| Layout.AtMostOneActive | src/components/Layout.tsx:72 | at most one entry is highlighted, and none on a path outside the table |
| AppShell.InitialRoute | src/App.tsx:37-41 | '/login' exactly when signed out, '/' exactly for a super_admin, '/leads' exactly for anyone else |
| AppShell.SignedIn | src/App.tsx:24-29 | 'user' holds the profile and 'token' the token; other entries are unchanged |
| AppShell.SignedOut | src/App.tsx:31-35 | 'user' and 'token' are gone; other entries are unchanged |
| AppShell.ReloadRestoresSession | src/App.tsx:17-35 | a reload after sign-in restores that user; after sign-out nobody |
| AppShell.SignOutIdempotent | src/App.tsx:31-35 | signing out twice is signing out once |
| AppShell.Session.constructor | src/App.tsx:15 | the first render has no user, whatever storage holds |
| AppShell.Session.RestoreSaved | src/App.tsx:17-22 | a saved 'user' entry becomes the current user; without one the user is unchanged; storage is unchanged |
| AppShell.Session.HandleLogin | src/App.tsx:24-29 | the user is the profile and storage becomes `SignedIn` |
| AppShell.Session.HandleLogout | src/App.tsx:31-35 | no user, and storage becomes `SignedOut` |
| AppShell.LayoutChild | src/App.tsx:50-57 | the nested pages are neither the login page nor the dashboard |
| AppShell.Resolve | src/App.tsx:46-60 | signed out, only '/login' renders and all else redirects there; signed in, '/login' and unknown paths redirect to the initial route, '/' shows the dashboard only to super_admin, nested pages render in the layout |
| AppShell.RedirectsSettle | src/App.tsx:46-60 | a redirect's target never redirects again |
| AppShell.ReloadLandsOnInitialRoute | src/App.tsx:15-22 | a reload first sends every path to '/login', then lands on the initial route of the saved user, which renders a page; a deep link is not kept |
| AppShell.NavigationTargetsResolve | src/App.tsx:48-57 | every sidebar entry a user sees renders a page, except Dashboard, which sends non-super_admins to '/leads' |
| AppShell.NavTableHrefs | src/components/Layout.tsx:41-47 | every sidebar entry points at '/' or one of five nested paths |
| AppShell.DashboardResolves | src/App.tsx:49 | '/' shows the dashboard to super_admin and redirects everyone else to '/leads' |
| AppShell.ChildResolves | src/App.tsx:50-56 | each non-dashboard sidebar target renders inside the layout |
| AppShell.LayoutChildren | src/App.tsx:50-56 | the pages each sidebar target maps to |
| AppShell.LoginLanding | src/App.tsx:37-41 | a successful login lands super_admin on '/' and everyone else on '/leads' |

## Left out

- I/O is not modelled: the HTTP transport, JSON parsing of request bodies, `fetch`, `localStorage` access, console logging, Vite and static serving. Request bodies are typed values whose missing fields are `None`. JSON values of other types (a number where text is expected) are not modelled.
- JWT signing, expiry and secrets are not modelled. Token verification is a function the caller supplies.
- bcrypt salt and cost are not modelled. A hash is identified with its password.
- Time is a counter, so `created_at` values are strictly increasing. Equal timestamps within one second are not modelled.
- Ties in `ORDER BY` come back in one admissible order (insertion sort). SQLite's actual tie order is not modelled.
- Rows of joins come back in the order of the driving table. SQLite's choice of join order is not modelled.
- Socket connection, disconnect and logging are not modelled. A socket is an id and a room is a set of ids.
- JavaScript numbers are non-negative integers. Negative, fractional and non-finite values are not modelled.
- Store.RealText: renders every integral REAL as its digits and '.0'. SQLite switches to exponent form ('1.0e+15') from 10^15 on, and JavaScript numbers above 2^53 are not exact; neither is modelled.
- `Number()` of text that is not a plain digit run is left as `NotPlainDigits`: whitespace, signs, hex and decimals are not parsed.
- `toLowerCase` is ASCII only. Unicode case mapping is not modelled.
- Notifications are modelled only by their `read` field. Fetching `/api/notifications` and the 30-second polling are not modelled; the server defines no such route.
- The Users page's `fetchData` refresh after a save, `deleteUser`, loading flags and rendering are not modelled.
- `Layout`'s mobile-menu and notification-panel toggles are not modelled.
- The 'user' entry in `localStorage` is either a profile or other text. `JSON.parse` failing on malformed text is not modelled.
- The model matches route paths exactly and case-sensitively. React Router matches case-insensitively by default, so '/Leads' renders the lead list there but redirects here. Trailing slashes, query strings and encoded characters are not modelled.
- `authenticate` on a header without a space passes `undefined` to `jwt.verify`, which throws. The model folds this into 'Invalid token'.
- The page components other than the Users page and the layout (Dashboard, Leads, LeadDetail, Messages, Settings, Dealerships, Locations, Login) are not part of this model. The API routes they call are modelled in `Queries` and `Api`.
- Queries.GetStats: states the super_admin unread count exactly but gives only an upper bound for other callers. The dealership-scoped count is the filter the body computes.
- Store.IntegerAffinity: converts only plain digit runs. SQLite also converts other text that reads as an integral number, such as '5.0', '+5', ' 5' and '3.0e+5'. So the model treats `GET /api/leads/5.0` as no lead where SQLite finds lead 5. The same applies to `LeadCommunications` and to the lead and user ids `StoreMessage` inserts.
- Due dates (`Api.TaskForm.dueDate`) are numbers. The source stores DATETIME text and sorts it as TEXT, so dates written in different formats do not sort by time there. The model sorts by value.
