/** The read-only route handlers of server.ts: login and the GET routes.
    Each is a query over the tables, so each is a function of the tables, the
    claims of the caller (for the routes behind `authenticate`) and the
    request; none of them changes the tables.

    Row order: a query without ORDER BY returns its rows in table order (the
    order SQLite scans the driving table in); ORDER BY is `Seqs.SortBy`,
    which fixes one of the orders SQL allows when keys tie. */
module Queries {
  import opened Base
  import opened Store
  import opened Auth
  import Seqs
  import Text

  /** `col = ?` with an integer column and a parameter that may be NULL:
      comparing with NULL is never true, so a NULL parameter matches no row. */
  predicate SqlEq(col: nat, param: Option<nat>) {
    param.Some? && param.value == col
  }

  // ---------------------------------------------------------------------------
  // POST /api/auth/login

  /** The user fields the login reply carries next to the token. */
  datatype Profile = Profile(id: nat, name: string, email: string, role: string,
                             dealershipId: Option<nat>, locationId: Option<nat>)

  /** A successful login: the claims signed into the token, and the profile. */
  datatype Session = Session(claims: Claims, user: Profile)

  /** `SELECT u.*, r.name AS role FROM users u JOIN roles r ON u.role_id = r.id
      WHERE email = ?` followed by `.get()`: the first user with this email
      whose role row exists, paired with the name of that role. */
  function LoginRow(users: seq<User>, roles: seq<Role>, email: string): (r: Option<(User, string)>)
    ensures r.Some? ==>
      && r.value.0 in users && r.value.0.email == email
      && FindRoleById(roles, r.value.0.roleId) == Some(Role(r.value.0.roleId, r.value.1))
    ensures r.None? <==>
      forall i :: 0 <= i < |users| && users[i].email == email ==> FindRoleById(roles, users[i].roleId).None?
  {
    if users == [] then None
    else if users[0].email == email && FindRoleById(roles, users[0].roleId).Some? then
      Some((users[0], FindRoleById(roles, users[0].roleId).value.name))
    else
      var rest := LoginRow(users[1..], roles, email);
      assert forall i :: 1 <= i < |users| ==> users[i] == users[1..][i - 1];
      rest
  }

  /** The login route. No user with this email (an absent email matches
      none) or a password that does not match the stored hash is 401 'Invalid
      credentials'; an absent password with a found user makes bcrypt throw.
      The user's `status` is not consulted. */
  function Login(t: Tables, email: Option<string>, password: Option<string>): (r: Reply<Session>)
    ensures r.Refused? ==> r == Refused(401, "Invalid credentials")
    ensures r.Refused? <==>
      || email.None? || LoginRow(t.users, t.roles, email.value).None?
      || (password.Some? && !PasswordMatches(password.value, LoginRow(t.users, t.roles, email.value).value.0.password))
    ensures r.Crashed? <==> email.Some? && LoginRow(t.users, t.roles, email.value).Some? && password.None?
    ensures r.Ok? ==>
      exists i :: 0 <= i < |t.users| && t.users[i].email == email.value
        && PasswordMatches(password.value, t.users[i].password)
        && r == Ok(200, Session(Claims(t.users[i].id, r.value.claims.role, t.users[i].dealershipId),
                                Profile(t.users[i].id, t.users[i].name, t.users[i].email, r.value.claims.role,
                                        t.users[i].dealershipId, t.users[i].locationId)))
        && FindRoleById(t.roles, t.users[i].roleId) == Some(Role(t.users[i].roleId, r.value.claims.role))
  {
    if email.None? then Refused(401, "Invalid credentials")
    else
      match LoginRow(t.users, t.roles, email.value)
      case None => Refused(401, "Invalid credentials")
      case Some((u, role)) =>
        if password.None? then Crashed
        else if !PasswordMatches(password.value, u.password) then Refused(401, "Invalid credentials")
        else
          Ok(200, Session(Claims(u.id, role, u.dealershipId),
                          Profile(u.id, u.name, u.email, role, u.dealershipId, u.locationId)))
  }

  /** With the database consistent, a user who gives their own email and
      password logs in, and the token carries exactly their id, the name of
      their role and their dealership. */
  lemma LoginAsUser(t: Tables, i: nat, password: string)
    requires Consistent(t) && i < |t.users| && t.users[i].password == HashPassword(password)
    ensures var u := t.users[i];
      Login(t, Some(u.email), Some(password)) ==
        Ok(200, Session(Claims(u.id, t.roles[u.roleId - 1].name, u.dealershipId),
                        Profile(u.id, u.name, u.email, t.roles[u.roleId - 1].name, u.dealershipId, u.locationId)))
  {
    var u := t.users[i];
    var role := t.roles[u.roleId - 1];
    assert role.id == u.roleId;
    assert FindRoleById(t.roles, u.roleId).Some?;
    var row := LoginRow(t.users, t.roles, u.email);
    assert row.Some? by {
      assert t.users[i].email == u.email;
    }
    var j :| 0 <= j < |t.users| && t.users[j] == row.value.0;
    assert j == i;
    assert FindRoleById(t.roles, u.roleId).value == role by {
      var k :| 0 <= k < |t.roles| && t.roles[k] == FindRoleById(t.roles, u.roleId).value;
    }
  }

  // ---------------------------------------------------------------------------
  // GET /api/dealerships, GET /api/roles

  /** `SELECT * FROM dealerships`: every dealership, in table order. */
  function ListDealerships(t: Tables): (r: seq<Dealership>)
    ensures r == t.dealerships
  {
    t.dealerships
  }

  /** `SELECT * FROM roles`: every role, in table order. */
  function ListRoles(t: Tables): (r: seq<Role>)
    ensures r == t.roles
  {
    t.roles
  }

  // ---------------------------------------------------------------------------
  // GET /api/locations

  /** A location row of the reply; `dealershipName` is the joined
      `dealership_name` column, which only the super_admin query selects. */
  datatype LocationRow = LocationRow(location: Location, dealershipName: Option<string>)

  /** `locations l JOIN dealerships d ON l.dealership_id = d.id`. */
  function LocationsWithDealership(locs: seq<Location>, ds: seq<Dealership>): (r: seq<LocationRow>)
    ensures |r| <= |locs|
    ensures forall row :: row in r ==>
      && row.location in locs && FindDealershipById(ds, row.location.dealershipId).Some?
      && row.dealershipName == Some(FindDealershipById(ds, row.location.dealershipId).value.name)
    ensures (forall i :: 0 <= i < |locs| ==> FindDealershipById(ds, locs[i].dealershipId).Some?) ==>
      |r| == |locs| && forall i :: 0 <= i < |r| ==> r[i].location == locs[i]
  {
    if locs == [] then []
    else
      var rest := LocationsWithDealership(locs[1..], ds);
      assert forall i :: 1 <= i < |locs| ==> locs[i] == locs[1..][i - 1];
      match FindDealershipById(ds, locs[0].dealershipId)
      case Some(d) => [LocationRow(locs[0], Some(d.name))] + rest
      case None => rest
  }

  /** The locations of dealership `dealershipId` (none for NULL). */
  function InDealership(dealershipId: Option<nat>): Location -> bool {
    (l: Location) => SqlEq(l.dealershipId, dealershipId)
  }

  /** `SELECT * FROM locations WHERE dealership_id = ?`. */
  function LocationsOf(locs: seq<Location>, dealershipId: Option<nat>): (r: seq<LocationRow>)
    ensures |r| <= |locs|
    ensures forall row :: row in r ==> row.dealershipName.None?
    ensures forall l :: LocationRow(l, None) in r <==> l in locs && SqlEq(l.dealershipId, dealershipId)
  {
    if locs == [] then []
    else
      var rest := LocationsOf(locs[1..], dealershipId);
      assert locs == [locs[0]] + locs[1..];
      if SqlEq(locs[0].dealershipId, dealershipId) then [LocationRow(locs[0], None)] + rest else rest
  }

  /** Each location of the dealership is listed exactly once, in table order. */
  lemma {:induction false} LocationsOfOnce(locs: seq<Location>, dealershipId: Option<nat>)
    ensures var r, kept := LocationsOf(locs, dealershipId), Seqs.Filter(locs, InDealership(dealershipId));
      |r| == |kept| && forall i :: 0 <= i < |r| ==> r[i] == LocationRow(kept[i], None)
  {
    if locs != [] {
      var p := InDealership(dealershipId);
      var r, rest := LocationsOf(locs, dealershipId), LocationsOf(locs[1..], dealershipId);
      var kept, keptRest := Seqs.Filter(locs, p), Seqs.Filter(locs[1..], p);
      LocationsOfOnce(locs[1..], dealershipId);
      if p(locs[0]) {
        assert kept == [locs[0]] + keptRest;
        assert r == [LocationRow(locs[0], None)] + rest;
        LocationsConsStep(locs[0], rest, keptRest);
      } else {
        assert kept == keptRest && r == rest;
      }
    }
  }

  /** Adding a location's row in front of the rows of `locs` gives the rows of
      that location followed by `locs`. */
  lemma LocationsConsStep(l: Location, rest: seq<LocationRow>, locs: seq<Location>)
    requires |rest| == |locs| && forall i :: 0 <= i < |rest| ==> rest[i] == LocationRow(locs[i], None)
    ensures var r, kept := [LocationRow(l, None)] + rest, [l] + locs;
      |r| == |kept| && forall i :: 0 <= i < |r| ==> r[i] == LocationRow(kept[i], None)
  {
  }

  /** A consistent database has a dealership row behind every location. */
  lemma LocationDealershipsExist(t: Tables)
    ensures Consistent(t) ==> forall i :: 0 <= i < |t.locations| ==> FindDealershipById(t.dealerships, t.locations[i].dealershipId).Some?
  {
    forall i | Consistent(t) && 0 <= i < |t.locations|
      ensures FindDealershipById(t.dealerships, t.locations[i].dealershipId).Some?
    {
      var id := t.locations[i].dealershipId;
      assert t.dealerships[id - 1].id == id;
    }
  }

  /** The locations route: a super_admin gets every location, in table order,
      with its dealership's name; any other caller gets exactly the locations
      of the dealership in its token (none when that is NULL). */
  function ListLocations(t: Tables, c: Claims): (r: seq<LocationRow>)
    ensures c.role == SuperAdmin && Consistent(t) ==>
      |r| == |t.locations| && forall i :: 0 <= i < |r| ==> r[i].location == t.locations[i]
    ensures c.role == SuperAdmin ==> forall row :: row in r ==>
      && FindDealershipById(t.dealerships, row.location.dealershipId).Some?
      && row.dealershipName == Some(FindDealershipById(t.dealerships, row.location.dealershipId).value.name)
    ensures c.role != SuperAdmin ==>
      && (forall row :: row in r ==> row.dealershipName.None?)
      && (forall l :: LocationRow(l, None) in r <==> l in t.locations && SqlEq(l.dealershipId, c.dealershipId))
    ensures c.role != SuperAdmin ==> var kept := Seqs.Filter(t.locations, InDealership(c.dealershipId));
      |r| == |kept| && forall i :: 0 <= i < |r| ==> r[i] == LocationRow(kept[i], None)
  {
    if c.role == SuperAdmin then
      LocationDealershipsExist(t);
      LocationsWithDealership(t.locations, t.dealerships)
    else
      LocationsOfOnce(t.locations, c.dealershipId);
      LocationsOf(t.locations, c.dealershipId)
  }

  // ---------------------------------------------------------------------------
  // GET /api/users

  /** A user row of the reply: all user columns (the password hash included),
      the role name, and for the super_admin query the dealership name. */
  datatype UserRow = UserRow(user: User, role: string, dealershipName: Option<string>)

  /** The name of the dealership a user belongs to, NULL when it has none
      (`LEFT JOIN dealerships d ON u.dealership_id = d.id`). */
  function DealershipNameOf(u: User, ds: seq<Dealership>): Option<string> {
    if u.dealershipId.None? then None
    else
      match FindDealershipById(ds, u.dealershipId.value)
      case Some(d) => Some(d.name)
      case None => None
  }

  /** `users u JOIN roles r ON u.role_id = r.id LEFT JOIN dealerships d ...`. */
  function AllUserRows(us: seq<User>, roles: seq<Role>, ds: seq<Dealership>): (r: seq<UserRow>)
    ensures |r| <= |us|
    ensures forall row :: row in r ==>
      && row.user in us && FindRoleById(roles, row.user.roleId) == Some(Role(row.user.roleId, row.role))
      && row.dealershipName == DealershipNameOf(row.user, ds)
    ensures (forall i :: 0 <= i < |us| ==> FindRoleById(roles, us[i].roleId).Some?) ==>
      |r| == |us| && forall i :: 0 <= i < |r| ==> r[i].user == us[i]
  {
    if us == [] then []
    else
      var rest := AllUserRows(us[1..], roles, ds);
      assert forall i :: 1 <= i < |us| ==> us[i] == us[1..][i - 1];
      match FindRoleById(roles, us[0].roleId)
      case Some(role) => [UserRow(us[0], role.name, DealershipNameOf(us[0], ds))] + rest
      case None => rest
  }

  /** The users of dealership `dealershipId` that have a role row (none for NULL). */
  function ListedIn(roles: seq<Role>, dealershipId: Option<nat>): User -> bool {
    (u: User) => dealershipId.Some? && u.dealershipId == dealershipId && FindRoleById(roles, u.roleId).Some?
  }

  /** `users u JOIN roles r ON u.role_id = r.id WHERE dealership_id = ?`. */
  function UserRowsOf(us: seq<User>, roles: seq<Role>, dealershipId: Option<nat>): (r: seq<UserRow>)
    ensures |r| <= |us|
    ensures forall row :: row in r ==>
      && row.user in us && row.dealershipName.None?
      && FindRoleById(roles, row.user.roleId) == Some(Role(row.user.roleId, row.role))
      && dealershipId.Some? && row.user.dealershipId == dealershipId
    ensures forall u :: u in us && dealershipId.Some? && u.dealershipId == dealershipId
                        && FindRoleById(roles, u.roleId).Some? ==>
      UserRow(u, FindRoleById(roles, u.roleId).value.name, None) in r
  {
    if us == [] then []
    else
      var rest := UserRowsOf(us[1..], roles, dealershipId);
      assert us == [us[0]] + us[1..];
      var role := FindRoleById(roles, us[0].roleId);
      if dealershipId.Some? && us[0].dealershipId == dealershipId && role.Some? then
        [UserRow(us[0], role.value.name, None)] + rest
      else rest
  }

  /** Each user of the dealership that has a role is listed exactly once, in table order. */
  lemma {:induction false} UserRowsOfOnce(us: seq<User>, roles: seq<Role>, dealershipId: Option<nat>)
    ensures var r, kept := UserRowsOf(us, roles, dealershipId), Seqs.Filter(us, ListedIn(roles, dealershipId));
      |r| == |kept| && forall i :: 0 <= i < |r| ==> r[i].user == kept[i]
  {
    if us != [] {
      var p := ListedIn(roles, dealershipId);
      var r, rest := UserRowsOf(us, roles, dealershipId), UserRowsOf(us[1..], roles, dealershipId);
      var kept, keptRest := Seqs.Filter(us, p), Seqs.Filter(us[1..], p);
      UserRowsOfOnce(us[1..], roles, dealershipId);
      if p(us[0]) {
        assert kept == [us[0]] + keptRest;
        var row := UserRow(us[0], FindRoleById(roles, us[0].roleId).value.name, None);
        assert r == [row] + rest;
        UsersOfConsStep(row, rest, keptRest);
      } else {
        assert kept == keptRest && r == rest;
      }
    }
  }

  /** Adding a row in front of rows whose users are `users` gives the rows of
      its user followed by `users`. */
  lemma UsersOfConsStep(row: UserRow, rest: seq<UserRow>, users: seq<User>)
    requires |rest| == |users| && forall i :: 0 <= i < |rest| ==> rest[i].user == users[i]
    ensures var r, kept := [row] + rest, [row.user] + users;
      |r| == |kept| && forall i :: 0 <= i < |r| ==> r[i].user == kept[i]
  {
  }

  /** A consistent database has a role row behind every user. */
  lemma UserRolesExist(t: Tables)
    ensures Consistent(t) ==> forall i :: 0 <= i < |t.users| ==> FindRoleById(t.roles, t.users[i].roleId).Some?
  {
    forall i | Consistent(t) && 0 <= i < |t.users| ensures FindRoleById(t.roles, t.users[i].roleId).Some? {
      var id := t.users[i].roleId;
      assert t.roles[id - 1].id == id;
    }
  }

  /** The users route: a super_admin gets every user, in table order, with
      the role name and the dealership name; any other caller gets exactly
      the users whose dealership is the one in its token, itself included. */
  function ListUsers(t: Tables, c: Claims): (r: seq<UserRow>)
    ensures forall row :: row in r ==> row.user in t.users
    ensures forall row :: row in r ==> FindRoleById(t.roles, row.user.roleId) == Some(Role(row.user.roleId, row.role))
    ensures c.role == SuperAdmin ==> forall row :: row in r ==> row.dealershipName == DealershipNameOf(row.user, t.dealerships)
    ensures c.role != SuperAdmin ==> forall row :: row in r ==> row.dealershipName.None?
    ensures c.role != SuperAdmin ==> var kept := Seqs.Filter(t.users, ListedIn(t.roles, c.dealershipId));
      |r| == |kept| && forall i :: 0 <= i < |r| ==> r[i].user == kept[i]
    ensures c.role == SuperAdmin && Consistent(t) ==>
      |r| == |t.users| && forall i :: 0 <= i < |r| ==> r[i].user == t.users[i]
    ensures c.role != SuperAdmin ==>
      forall row :: row in r ==> c.dealershipId.Some? && row.user.dealershipId == c.dealershipId
    ensures c.role != SuperAdmin && Consistent(t) ==>
      forall u :: u in t.users && c.dealershipId.Some? && u.dealershipId == c.dealershipId ==>
        exists row :: row in r && row.user == u
  {
    if c.role == SuperAdmin then
      UserRolesExist(t);
      AllUserRows(t.users, t.roles, t.dealerships)
    else
      var r := UserRowsOf(t.users, t.roles, c.dealershipId);
      UserRolesExist(t);
      UserRowsOfOnce(t.users, t.roles, c.dealershipId);
      r
  }

  // ---------------------------------------------------------------------------
  // GET /api/leads/:id, GET /api/leads

  /** The lead whose id equals the URL parameter. The parameter is text; the
      id column has INTEGER affinity, so a parameter that reads as an integer
      is compared as that integer and any other text matches no row. */
  function LeadByParam(leads: seq<Lead>, param: string): (r: Option<Lead>)
    ensures r.Some? ==> r.value in leads && IntegerAffinity(SqlText(param)) == SqlInt(r.value.id)
    ensures r.None? ==> forall l :: l in leads ==> IntegerAffinity(SqlText(param)) != SqlInt(l.id)
  {
    match IntegerAffinity(SqlText(param))
    case SqlInt(n) => FindLeadById(leads, n)
    case _ => None
  }

  /** The lead route: 404 when no lead has this id, for every caller; then
      403 when the caller is not a super_admin and the lead belongs to
      another dealership than the one in its token; otherwise the lead row as
      stored. */
  function GetLead(t: Tables, c: Claims, param: string): (r: Reply<Lead>)
    ensures LeadByParam(t.leads, param).None? ==> r == Refused(404, "Lead not found")
    ensures LeadByParam(t.leads, param).Some? ==>
      var lead := LeadByParam(t.leads, param).value;
      && (c.role != SuperAdmin && c.dealershipId != Some(lead.dealershipId) ==> r == Refused(403, "Forbidden"))
      && (c.role == SuperAdmin || c.dealershipId == Some(lead.dealershipId) ==> r == Ok(200, lead))
  {
    match LeadByParam(t.leads, param)
    case None => Refused(404, "Lead not found")
    case Some(lead) =>
      if c.role != SuperAdmin && c.dealershipId != Some(lead.dealershipId) then Refused(403, "Forbidden")
      else Ok(200, lead)
  }

  /** Asking for lead `n` by its decimal id: the lead with id `n` exists
      exactly when `1 <= n <= |leads|`, and then it is the `n`-th row. */
  lemma GetLeadByNumber(t: Tables, c: Claims, n: nat)
    requires IdsDense(t)
    ensures !(1 <= n <= |t.leads|) ==> GetLead(t, c, Text.Decimal(n)) == Refused(404, "Lead not found")
    ensures 1 <= n <= |t.leads| && (c.role == SuperAdmin || c.dealershipId == Some(t.leads[n - 1].dealershipId)) ==>
      GetLead(t, c, Text.Decimal(n)) == Ok(200, t.leads[n - 1])
  {
    DecimalAffinity(n);
    FindLeadDense(t, n);
    assert LeadByParam(t.leads, Text.Decimal(n)) == FindLeadById(t.leads, n);
  }

  /** The sort key of `ORDER BY created_at DESC`. */
  function NewestLeadFirst(l: Lead): int {
    -(l.createdAt as int)
  }

  /** `WHERE dealership_id = ?` on the leads table. */
  function LeadsOf(leads: seq<Lead>, dealershipId: Option<nat>): (r: seq<Lead>)
    ensures forall l :: l in r <==> l in leads && SqlEq(l.dealershipId, dealershipId)
    ensures multiset(r) <= multiset(leads)
  {
    Seqs.Filter(leads, (l: Lead) => SqlEq(l.dealershipId, dealershipId))
  }

  /** The leads route: all leads for a super_admin, exactly the leads of the
      token's dealership for anyone else; newest first. */
  function ListLeads(t: Tables, c: Claims): (r: seq<Lead>)
    ensures Seqs.SortedBy(r, NewestLeadFirst)
    ensures c.role == SuperAdmin ==> multiset(r) == multiset(t.leads)
    ensures c.role != SuperAdmin ==> multiset(r) == multiset(LeadsOf(t.leads, c.dealershipId))
    ensures c.role != SuperAdmin ==> forall l :: l in r <==> l in t.leads && SqlEq(l.dealershipId, c.dealershipId)
  {
    if c.role == SuperAdmin then Seqs.SortBy(t.leads, NewestLeadFirst)
    else
      var r := Seqs.SortBy(LeadsOf(t.leads, c.dealershipId), NewestLeadFirst);
      r
  }

  // ---------------------------------------------------------------------------
  // GET /api/leads/:id/communications

  /** The sort key of `ORDER BY created_at ASC`. */
  function OldestCommunicationFirst(m: Communication): int {
    m.createdAt
  }

  /** The communications route: every communication of the lead named by the
      URL parameter, oldest first. The caller's dealership is not consulted. */
  function LeadCommunications(t: Tables, param: string): (r: seq<Communication>)
    ensures Seqs.SortedBy(r, OldestCommunicationFirst)
    ensures forall m :: m in r <==> m in t.communications && IntegerAffinity(SqlText(param)) == SqlInt(m.leadId)
    ensures multiset(r) <= multiset(t.communications)
  {
    var key := IntegerAffinity(SqlText(param));
    var matching := Seqs.Filter(t.communications, (m: Communication) => key == SqlInt(m.leadId));
    var r := Seqs.SortBy(matching, OldestCommunicationFirst);
    r
  }

  // ---------------------------------------------------------------------------
  // GET /api/stats

  datatype Stats = Stats(totalLeads: nat, activeDeals: nat, unreadMessages: nat, avgResponseTime: string)

  /** The lead a communication belongs to lies in dealership `dealershipId`
      (`communications c JOIN leads l ON c.lead_id = l.id WHERE l.dealership_id = ?`). */
  predicate OnLeadOf(m: Communication, leads: seq<Lead>, dealershipId: Option<nat>) {
    var lead := FindLeadById(leads, m.leadId);
    lead.Some? && SqlEq(lead.value.dealershipId, dealershipId)
  }

  /** A lead counted as an active deal: its status is not 'closed'. */
  predicate ActiveDeal(l: Lead) {
    l.status != "closed"
  }

  /** The stats route: the number of leads, of leads whose status is not
      'closed', and of inbound communications, over everything for a
      super_admin and over the token's dealership for anyone else; the
      average response time is the constant '12m'. */
  function GetStats(t: Tables, c: Claims): (r: Stats)
    ensures r.activeDeals <= r.totalLeads
    ensures r.totalLeads == |ListLeads(t, c)|
    ensures r.activeDeals == |Seqs.Filter(ListLeads(t, c), ActiveDeal)|
    ensures r.unreadMessages <= |t.communications|
    ensures c.role == SuperAdmin ==>
      r.unreadMessages == |Seqs.Filter(t.communications, (m: Communication) => m.direction == "inbound")|
    ensures r.avgResponseTime == "12m"
  {
    var leads := if c.role == SuperAdmin then t.leads else LeadsOf(t.leads, c.dealershipId);
    var active := Seqs.Filter(leads, ActiveDeal);
    var inbound :=
      if c.role == SuperAdmin then Seqs.Filter(t.communications, (m: Communication) => m.direction == "inbound")
      else Seqs.Filter(t.communications, (m: Communication) =>
                         OnLeadOf(m, t.leads, c.dealershipId) && m.direction == "inbound");
    assert |ListLeads(t, c)| == |leads| by {
      assert |multiset(ListLeads(t, c))| == |multiset(leads)|;
    }
    Seqs.FilterPermutation(leads, ListLeads(t, c), ActiveDeal);
    Stats(|leads|, |active|, |inbound|, "12m")
  }

  // ---------------------------------------------------------------------------
  // GET /api/tasks

  /** A task row of the reply: the task and the names of its lead, NULL when
      the task has no lead (`LEFT JOIN leads l ON t.lead_id = l.id`). */
  datatype TaskRow = TaskRow(task: Task, firstName: Option<string>, lastName: Option<string>)

  /** The lead a task refers to, if any. */
  function LeadOfTask(k: Task, leads: seq<Lead>): Option<Lead> {
    if k.leadId.None? then None else FindLeadById(leads, k.leadId.value)
  }

  /** `tasks t LEFT JOIN leads l ON t.lead_id = l.id`: one row per task. */
  function TaskRows(tasks: seq<Task>, leads: seq<Lead>): (r: seq<TaskRow>)
    ensures |r| == |tasks|
    ensures forall i :: 0 <= i < |r| ==>
      && r[i].task == tasks[i]
      && (LeadOfTask(tasks[i], leads).Some? ==>
            r[i].firstName == Some(LeadOfTask(tasks[i], leads).value.firstName)
            && r[i].lastName == Some(LeadOfTask(tasks[i], leads).value.lastName))
      && (LeadOfTask(tasks[i], leads).None? ==> r[i].firstName.None? && r[i].lastName.None?)
  {
    if tasks == [] then []
    else
      var lead := LeadOfTask(tasks[0], leads);
      var row := if lead.Some? then TaskRow(tasks[0], Some(lead.value.firstName), Some(lead.value.lastName))
                 else TaskRow(tasks[0], None, None);
      [row] + TaskRows(tasks[1..], leads)
  }

  /** `WHERE l.dealership_id = ? OR t.user_id = ?`: the task's lead is in the
      token's dealership, or the task is the caller's own. A task without a
      lead makes the first comparison NULL, so only the second can admit it. */
  predicate TaskVisible(k: Task, leads: seq<Lead>, c: Claims) {
    || (LeadOfTask(k, leads).Some? && SqlEq(LeadOfTask(k, leads).value.dealershipId, c.dealershipId))
    || k.userId == c.id
  }

  /** The sort key of `ORDER BY t.due_date ASC`, where SQLite puts NULL first. */
  function DueFirst(row: TaskRow): int {
    if row.task.dueDate.None? then 0 else row.task.dueDate.value + 1
  }

  /** The tasks route: every task for a super_admin; for anyone else the
      tasks on leads of its dealership and the tasks assigned to it; earliest
      due date first, undated tasks before all others. */
  function ListTasks(t: Tables, c: Claims): (r: seq<TaskRow>)
    ensures Seqs.SortedBy(r, DueFirst)
    ensures c.role == SuperAdmin ==> multiset(r) == multiset(TaskRows(t.tasks, t.leads))
    ensures multiset(r) <= multiset(TaskRows(t.tasks, t.leads))
    ensures forall row :: row in r <==>
      row in TaskRows(t.tasks, t.leads) && (c.role == SuperAdmin || TaskVisible(row.task, t.leads, c))
  {
    var rows := TaskRows(t.tasks, t.leads);
    var kept := if c.role == SuperAdmin then rows
                else Seqs.Filter(rows, (row: TaskRow) => TaskVisible(row.task, t.leads, c));
    var r := Seqs.SortBy(kept, DueFirst);
    r
  }

  // ---------------------------------------------------------------------------
  // GET /api/messages

  /** A row of the message feed: the communication, its lead's names and the
      sender's name. */
  datatype MessageRow = MessageRow(comm: Communication, firstName: string, lastName: string, userName: string)

  /** `communications c JOIN leads l ON c.lead_id = l.id JOIN users u ON
      c.user_id = u.id` for one communication: no row when its lead is
      missing or it has no sender (a NULL user_id joins nothing). */
  function MessageRowFor(m: Communication, leads: seq<Lead>, users: seq<User>): (r: Option<MessageRow>)
    ensures r.Some? <==> FindLeadById(leads, m.leadId).Some? && m.userId.Some? && FindUserById(users, m.userId.value).Some?
    ensures r.Some? ==> r.value.comm == m
  {
    var lead := FindLeadById(leads, m.leadId);
    var user := if m.userId.None? then None else FindUserById(users, m.userId.value);
    if lead.Some? && user.Some? then Some(MessageRow(m, lead.value.firstName, lead.value.lastName, user.value.name))
    else None
  }

  /** A communication appears in the feed of `c`: it joins a lead and a
      sender, and for a caller other than a super_admin its lead is in the
      caller's dealership. */
  function InFeed(leads: seq<Lead>, users: seq<User>, c: Claims): Communication -> bool {
    (m: Communication) => MessageRowFor(m, leads, users).Some? && (c.role == SuperAdmin || OnLeadOf(m, leads, c.dealershipId))
  }

  /** The joined rows of the feed, with `WHERE l.dealership_id = ?` for a
      caller other than a super_admin. */
  function MessageRows(comms: seq<Communication>, leads: seq<Lead>, users: seq<User>, c: Claims): (r: seq<MessageRow>)
    ensures |r| <= |comms|
    ensures forall row :: row in r ==>
      && row.comm in comms && MessageRowFor(row.comm, leads, users) == Some(row)
      && (c.role != SuperAdmin ==> OnLeadOf(row.comm, leads, c.dealershipId))
    ensures forall m :: m in comms && MessageRowFor(m, leads, users).Some?
                        && (c.role == SuperAdmin || OnLeadOf(m, leads, c.dealershipId)) ==>
      MessageRowFor(m, leads, users).value in r
  {
    if comms == [] then []
    else
      var rest := MessageRows(comms[1..], leads, users, c);
      assert comms == [comms[0]] + comms[1..];
      var row := MessageRowFor(comms[0], leads, users);
      if row.Some? && (c.role == SuperAdmin || OnLeadOf(comms[0], leads, c.dealershipId)) then [row.value] + rest
      else rest
  }

  /** Each communication of the feed gives exactly one row, in table order. */
  lemma {:induction false} MessageRowsOnce(comms: seq<Communication>, leads: seq<Lead>, users: seq<User>, c: Claims)
    ensures var r, kept := MessageRows(comms, leads, users, c), Seqs.Filter(comms, InFeed(leads, users, c));
      |r| == |kept| && forall i :: 0 <= i < |r| ==> MessageRowFor(kept[i], leads, users) == Some(r[i])
  {
    if comms != [] {
      var p := InFeed(leads, users, c);
      var r, rest := MessageRows(comms, leads, users, c), MessageRows(comms[1..], leads, users, c);
      var kept, keptRest := Seqs.Filter(comms, p), Seqs.Filter(comms[1..], p);
      MessageRowsOnce(comms[1..], leads, users, c);
      if p(comms[0]) {
        assert kept == [comms[0]] + keptRest;
        var row := MessageRowFor(comms[0], leads, users).value;
        assert r == [row] + rest;
        FeedConsStep(comms[0], row, keptRest, rest, leads, users);
      } else {
        assert kept == keptRest && r == rest;
      }
    }
  }

  /** Adding a communication and its row in front of matching lists keeps
      them matching. */
  lemma FeedConsStep(m: Communication, row: MessageRow, kept: seq<Communication>, rest: seq<MessageRow>,
                     leads: seq<Lead>, users: seq<User>)
    requires MessageRowFor(m, leads, users) == Some(row)
    requires |rest| == |kept| && forall i :: 0 <= i < |rest| ==> MessageRowFor(kept[i], leads, users) == Some(rest[i])
    ensures var r, k := [row] + rest, [m] + kept;
      |r| == |k| && forall i :: 0 <= i < |r| ==> MessageRowFor(k[i], leads, users) == Some(r[i])
  {
  }

  /** The sort key of `ORDER BY c.created_at DESC`. */
  function NewestMessageFirst(row: MessageRow): int {
    -(row.comm.createdAt as int)
  }

  const FeedLimit: nat := 50

  /** The message feed: at most 50 joined rows, newest first. When more rows
      qualify, the ones returned are the newest: no row left out is newer
      than a row returned. */
  function ListMessages(t: Tables, c: Claims): (r: seq<MessageRow>)
    ensures |r| <= FeedLimit
    ensures |MessageRows(t.communications, t.leads, t.users, c)| > FeedLimit ==> |r| == FeedLimit
    ensures Seqs.SortedBy(r, NewestMessageFirst)
    ensures forall row :: row in r ==>
      && row.comm in t.communications && row.comm.userId.Some?
      && MessageRowFor(row.comm, t.leads, t.users) == Some(row)
      && (c.role != SuperAdmin ==> OnLeadOf(row.comm, t.leads, c.dealershipId))
    ensures var all := MessageRows(t.communications, t.leads, t.users, c);
      && multiset(r) <= multiset(all)
      && (|all| <= FeedLimit ==> multiset(r) == multiset(all))
      && (forall x, y :: x in r && y in all && y !in r ==> y.comm.createdAt <= x.comm.createdAt)
  {
    var all := MessageRows(t.communications, t.leads, t.users, c);
    Seqs.SortedPrefix(all, FeedLimit, NewestMessageFirst);
    Seqs.Take(Seqs.SortBy(all, NewestMessageFirst), FeedLimit)
  }
}
