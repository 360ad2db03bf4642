/** The staff-management page, src/pages/Users.tsx: the list helpers it
    derives from the fetched users and roles, and the form state that
    `openEditUser`, `toggleLocation` and `handleSubmit` update. The fetches
    themselves are left out: a submission ends in a `Request`, and its
    answer comes back in as a `Response`. */
module UsersPage {
  import opened Base
  import Text
  import Seqs
  import Store
  import Auth
  import Queries

  /** A location id in the form. The ids parsed from `location_ids` go
      through `Number`, so an entry may be something other than an integer. */
  type LocationId = Text.Numeric

  /** A user as the page lists it; `locationIds` is the `location_ids` field. */
  datatype ListedUser = ListedUser(id: nat, name: string, email: string, role: string, locationIds: Option<string>)

  /** A row of GET /api/users as the page receives it. The server selects no
      `location_ids` column, so that field is always absent. */
  function FromRow(row: Queries.UserRow): (u: ListedUser)
    ensures u.id == row.user.id && u.name == row.user.name && u.email == row.user.email && u.role == row.role
    ensures u.locationIds.None?
  {
    ListedUser(row.user.id, row.user.name, row.user.email, row.role, None)
  }

  /** The modal's form. */
  datatype FormData = FormData(name: string, email: string, password: string, roleName: string,
                               locationIds: seq<LocationId>)

  const EmptyForm: FormData := FormData("", "", "", "", [])

  // ---------------------------------------------------------------------------
  // List helpers

  /** The ids other than `id`. */
  function Other(id: nat): LocationId -> bool {
    (x: LocationId) => x != Text.Int(id)
  }

  /** `toggleLocation(id)`: an id already selected is removed, every copy of
      it; any other id is appended at the end. */
  function ToggleLocation(ids: seq<LocationId>, id: nat): (r: seq<LocationId>)
    ensures Text.Int(id) in ids ==> Text.Int(id) !in r && multiset(r) == multiset(ids)[Text.Int(id) := 0]
    ensures Text.Int(id) !in ids ==> r == ids + [Text.Int(id)]
  {
    if Text.Int(id) in ids then
      var kept := Seqs.Filter(ids, Other(id));
      Seqs.FilterCount(ids, Other(id));
      kept
    else ids + [Text.Int(id)]
  }

  /** Removing keeps the other ids in their order: toggling off an id that
      sits once between `a` and `b` leaves `a` followed by `b`. */
  lemma {:induction false} ToggleOffKeepsOrder(a: seq<LocationId>, b: seq<LocationId>, id: nat)
    requires Text.Int(id) !in a && Text.Int(id) !in b
    ensures ToggleLocation(a + [Text.Int(id)] + b, id) == a + b
  {
    var x, p := Text.Int(id), Other(id);
    assert x in a + [x] + b;
    assert forall y :: y in a ==> p(y);
    assert forall y :: y in b ==> p(y);
    Seqs.FilterDropsOne(a, x, b, p);
  }

  /** Toggling an unselected id twice gives the selection back. */
  lemma ToggleTwice(ids: seq<LocationId>, id: nat)
    requires Text.Int(id) !in ids
    ensures ToggleLocation(ToggleLocation(ids, id), id) == ids
  {
    ToggleOffKeepsOrder(ids, [], id);
    assert ids + [Text.Int(id)] + [] == ids + [Text.Int(id)];
  }

  /** A role a principal may assign: neither super_admin nor principal. */
  predicate Assignable(role: Store.Role) {
    role.name != SuperAdmin && role.name != Principal
  }

  /** `filteredRoles`: a principal may assign every role except super_admin
      and principal, in the order the roles came; anyone else none. */
  function FilteredRoles(roles: seq<Store.Role>, currentRole: string): (r: seq<Store.Role>)
    ensures currentRole != Principal ==> r == []
    ensures currentRole == Principal ==>
      forall role :: role in r <==> role in roles && role.name != SuperAdmin && role.name != Principal
    ensures |r| <= |roles|
  {
    if currentRole == Principal then Seqs.Filter(roles, Assignable)
    else []
  }

  /** The roles offered keep the order they came in: the offer for two lists
      put together is the two offers put together. */
  lemma FilteredRolesKeepOrder(a: seq<Store.Role>, b: seq<Store.Role>, currentRole: string)
    ensures FilteredRoles(a + b, currentRole) == FilteredRoles(a, currentRole) + FilteredRoles(b, currentRole)
  {
    Seqs.FilterConcat(a, b, Assignable);
  }

  /** The search test: the lowercased query occurs in the lowercased name or email. */
  predicate Matches(u: ListedUser, query: string) {
    Text.Contains(Text.Lower(u.name), Text.Lower(query)) || Text.Contains(Text.Lower(u.email), Text.Lower(query))
  }

  /** The search test for a fixed query. */
  function MatchesQuery(query: string): ListedUser -> bool {
    (u: ListedUser) => Matches(u, query)
  }

  /** `filteredUsers`: the users matching the search box, in list order. */
  function FilteredUsers(users: seq<ListedUser>, query: string): (r: seq<ListedUser>)
    ensures forall u :: u in r <==> u in users && Matches(u, query)
    ensures |r| <= |users|
  {
    Seqs.Filter(users, MatchesQuery(query))
  }

  /** The search keeps the list order: searching two lists put together is
      searching each and putting the results together. */
  lemma FilteredUsersKeepOrder(a: seq<ListedUser>, b: seq<ListedUser>, query: string)
    ensures FilteredUsers(a + b, query) == FilteredUsers(a, query) + FilteredUsers(b, query)
  {
    Seqs.FilterConcat(a, b, MatchesQuery(query));
  }

  /** An empty search box lists everyone. */
  lemma EmptyQueryKeepsAll(users: seq<ListedUser>)
    ensures FilteredUsers(users, "") == users
  {
    forall u | u in users ensures Matches(u, "") {
      Text.ContainsEmpty(Text.Lower(u.name));
    }
    Seqs.FilterKeepsAll(users, MatchesQuery(""));
  }

  /** Only a principal sees the add button. */
  predicate CanCreateUsers(currentRole: string) {
    currentRole == Principal
  }

  /** The page shows a principal's add button only to roles the server lets
      create users, and never to the one role shown the restricted view. */
  lemma CreateButtonWithinServerPolicy(currentRole: string)
    ensures CanCreateUsers(currentRole) ==> currentRole in Auth.AccessOf(Auth.CreateUserRoute).value.roles
    ensures CanCreateUsers(currentRole) ==> !RestrictedView(currentRole)
  {
  }

  /** A super_admin gets the restricted view instead of the page. */
  predicate RestrictedView(currentRole: string) {
    currentRole == SuperAdmin
  }

  // ---------------------------------------------------------------------------
  // Editing

  /** `location_ids.toString().split(',').map(Number)`, or no ids when the
      field is missing or empty. */
  function ParseLocationIds(field: Option<string>): (r: seq<LocationId>)
    ensures !Truthy(field) ==> r == []
    ensures Truthy(field) ==>
      var parts := Text.Split(field.value, ',');
      |r| == |parts| && forall i :: 0 <= i < |r| ==> r[i] == Text.ToNumber(parts[i])
  {
    if !Truthy(field) then []
    else
      var parts := Text.Split(field.value, ',');
      seq(|parts|, i requires 0 <= i < |parts| => Text.ToNumber(parts[i]))
  }

  /** The decimal renderings of `ids`. */
  function Renderings(ids: seq<nat>): (r: seq<string>)
    ensures |r| == |ids| && forall i :: 0 <= i < |ids| ==> r[i] == Text.Decimal(ids[i])
  {
    seq(|ids|, i requires 0 <= i < |ids| => Text.Decimal(ids[i]))
  }

  /** A list of ids stored comma-separated parses back to the same ids. */
  lemma ParseJoinedIds(ids: seq<nat>)
    requires |ids| >= 1
    ensures var field := Text.Join(Renderings(ids), ',');
      ParseLocationIds(Some(field)) == seq(|ids|, i requires 0 <= i < |ids| => Text.Int(ids[i]))
  {
    var parts := Renderings(ids);
    forall p | p in parts ensures ',' !in p {
      var k :| 0 <= k < |parts| && parts[k] == p;
      assert forall j :: 0 <= j < |p| ==> p[j] != ',';
    }
    Text.SplitJoin(parts, ',');
    var field := Text.Join(parts, ',');
    assert |field| >= |parts[0]| >= 1;
    forall i | 0 <= i < |ids| ensures Text.ToNumber(parts[i]) == Text.Int(ids[i]) {
      Text.DecimalRoundTrip(ids[i]);
    }
  }

  /** The form `openEditUser` fills in from a listed user: its name, email
      and role, its parsed location ids, and an empty password. */
  function EditForm(u: ListedUser): (f: FormData)
    ensures f.password == "" && f.locationIds == ParseLocationIds(u.locationIds)
    ensures f.name == u.name && f.email == u.email && f.roleName == u.role
  {
    FormData(u.name, u.email, "", u.role, ParseLocationIds(u.locationIds))
  }

  // ---------------------------------------------------------------------------
  // Submitting

  const NoLocationError: string := "Please select at least one location."
  const SaveError: string := "An error occurred while saving the user."
  const ConnectionError: string := "Failed to connect to the server."

  /** The request a submission sends: method, URL and JSON body. */
  datatype Request = Request(verb: string, url: string, body: FormData)

  /** PUT to the user's own URL when editing, POST to the collection otherwise. */
  function SubmitTarget(editing: Option<ListedUser>, form: FormData): (r: Request)
    ensures r.body == form
    ensures editing.None? ==> r.verb == "POST" && r.url == "/api/users"
    ensures editing.Some? ==> r.verb == "PUT" && r.url == "/api/users/" + Text.Decimal(editing.value.id)
  {
    if editing.Some? then Request("PUT", "/api/users/" + Text.Decimal(editing.value.id), form)
    else Request("POST", "/api/users", form)
  }

  /** How a sent request ended: an answer with its `ok` flag and `error`
      field, or an exception (no connection, or a body that is not JSON). */
  datatype Response = Answered(ok: bool, error: Option<string>) | Failed

  /** The page's state. */
  class Page {
    const currentRole: string
    var editing: Option<ListedUser>
    var form: FormData
    var modalOpen: bool
    var submitting: bool
    var error: Option<string>

    constructor (role: string)
      ensures currentRole == role && editing.None? && form == EmptyForm
      ensures !modalOpen && !submitting && error.None?
    {
      currentRole := role;
      editing := None;
      form := EmptyForm;
      modalOpen := false;
      submitting := false;
      error := None;
    }

    /** The add button: a blank form for a new user. */
    method OpenNewUser()
      modifies this
      ensures editing.None? && form == EmptyForm && modalOpen
      ensures submitting == old(submitting) && error == old(error)
    {
      editing := None;
      form := EmptyForm;
      modalOpen := true;
    }

    /** `openEditUser`. */
    method OpenEditUser(u: ListedUser)
      modifies this
      ensures editing == Some(u) && form == EditForm(u) && modalOpen
      ensures submitting == old(submitting) && error == old(error)
    {
      editing := Some(u);
      form := FormData(u.name, u.email, "", u.role, ParseLocationIds(u.locationIds));
      modalOpen := true;
    }

    /** `toggleLocation`: only the selected ids of the form change. */
    method ToggleLocationOf(id: nat)
      modifies this
      ensures form == old(form).(locationIds := ToggleLocation(old(form).locationIds, id))
      ensures editing == old(editing) && modalOpen == old(modalOpen)
      ensures submitting == old(submitting) && error == old(error)
    {
      form := form.(locationIds := ToggleLocation(form.locationIds, id));
    }

    /** `handleSubmit` up to the fetch: with no location selected the error
        is set and nothing is sent; otherwise the page is marked submitting,
        the error cleared and the request built. */
    method BeginSubmit() returns (sent: Option<Request>)
      modifies this
      ensures |old(form).locationIds| == 0 ==>
        sent.None? && error == Some(NoLocationError) && submitting == old(submitting)
      ensures |old(form).locationIds| != 0 ==>
        sent == Some(SubmitTarget(editing, form)) && submitting && error.None?
      ensures editing == old(editing) && form == old(form) && modalOpen == old(modalOpen)
    {
      if |form.locationIds| == 0 {
        error := Some(NoLocationError);
        return None;
      }
      submitting := true;
      error := None;
      var url := if editing.Some? then "/api/users/" + Text.Decimal(editing.value.id) else "/api/users";
      var verb := if editing.Some? then "PUT" else "POST";
      sent := Some(Request(verb, url, form));
    }

    /** `handleSubmit` after the fetch: a success closes the modal and resets
        the form; a refusal shows the server's error or a generic one; an
        exception shows the connection error. Submitting ends in every case. */
    method FinishSubmit(res: Response)
      modifies this
      ensures !submitting
      ensures res.Answered? && res.ok ==>
        !modalOpen && editing.None? && form == EmptyForm && error == old(error)
      ensures res.Answered? && !res.ok ==>
        error == Some(OrElse(res.error, SaveError)) && editing == old(editing) && form == old(form)
        && modalOpen == old(modalOpen)
      ensures res.Failed? ==>
        error == Some(ConnectionError) && editing == old(editing) && form == old(form) && modalOpen == old(modalOpen)
    {
      if res.Answered? && res.ok {
        modalOpen := false;
        editing := None;
        form := EmptyForm;
      } else if res.Answered? {
        error := Some(OrElse(res.error, SaveError));
      } else {
        error := Some(ConnectionError);
      }
      submitting := false;
    }
  }

  /** Editing a user as the server lists them starts with no location
      selected, so submitting that form unchanged is refused by the page. */
  lemma EditedServerUserHasNoLocations(row: Queries.UserRow)
    ensures EditForm(FromRow(row)).locationIds == []
  {
  }
}
