/** The SQLite database as the schema in src/db/schema.ts declares it: seven
    tables of rows, the NOT NULL / UNIQUE / FOREIGN KEY constraints the engine
    enforces on every insert, the column defaults, and the row lookups the
    route handlers run. Rows are never deleted or updated by the modelled code,
    so AUTOINCREMENT hands out the ids 1, 2, 3, ... in insertion order, and a
    row with id `k` exists exactly when `1 <= k <= |table|` (see `IdsDense`).
    CURRENT_TIMESTAMP is the counter `clock`, which every successful insert
    advances. */
module Store {
  import opened Base
  import Text

  datatype Dealership = Dealership(id: nat, name: string, createdAt: nat)

  datatype Location = Location(id: nat, dealershipId: nat, name: string, address: Option<string>)

  datatype Role = Role(id: nat, name: string)

  /** A bcrypt hash. Salt and cost are not modelled: the hash is identified
      with the password it was made from, so comparing is equality. */
  datatype PasswordHash = Digest(of: string)

  function HashPassword(plain: string): PasswordHash {
    Digest(plain)
  }

  predicate PasswordMatches(plain: string, h: PasswordHash) {
    h.of == plain
  }

  datatype User = User(
    id: nat, dealershipId: Option<nat>, locationId: Option<nat>, roleId: nat,
    name: string, email: string, password: PasswordHash, status: string, createdAt: nat)

  datatype Lead = Lead(
    id: nat, dealershipId: nat, locationId: Option<nat>, assignedUserId: Option<nat>,
    firstName: string, lastName: string, email: Option<string>, phone: Option<string>,
    source: Option<string>, status: string, vehicleInterest: Option<string>,
    createdAt: nat, updatedAt: nat)

  /** `kind` is the `type` column ('email', 'sms', 'call', 'internal'). */
  datatype Communication = Communication(
    id: nat, leadId: nat, userId: Option<nat>, kind: string, direction: string,
    content: string, createdAt: nat)

  datatype Task = Task(
    id: nat, leadId: Option<nat>, userId: nat, title: string, description: Option<string>,
    dueDate: Option<nat>, status: string, createdAt: nat)

  /** The whole database. The two flags record whether the tables on disk come
      from the older schema in which users.dealership_id, respectively
      communications.user_id, was declared NOT NULL. */
  datatype Tables = Tables(
    dealerships: seq<Dealership>, locations: seq<Location>, roles: seq<Role>,
    users: seq<User>, leads: seq<Lead>, communications: seq<Communication>,
    tasks: seq<Task>, clock: nat,
    usersDealershipNotNull: bool, commsUserIdNotNull: bool)

  /** A database file with no tables yet (CREATE TABLE IF NOT EXISTS will make them empty). */
  function Fresh(clock: nat): (t: Tables)
    ensures Consistent(t)
    ensures !t.usersDealershipNotNull && !t.commsUserIdNotNull
  {
    Tables([], [], [], [], [], [], [], clock, false, false)
  }

  // ---------------------------------------------------------------------------
  // Invariants the engine maintains

  /** AUTOINCREMENT without deletions: the row at position `i` has id `i + 1`. */
  ghost predicate IdsDense(t: Tables) {
    && (forall i :: 0 <= i < |t.dealerships| ==> t.dealerships[i].id == i + 1)
    && (forall i :: 0 <= i < |t.locations| ==> t.locations[i].id == i + 1)
    && (forall i :: 0 <= i < |t.roles| ==> t.roles[i].id == i + 1)
    && (forall i :: 0 <= i < |t.users| ==> t.users[i].id == i + 1)
    && (forall i :: 0 <= i < |t.leads| ==> t.leads[i].id == i + 1)
    && (forall i :: 0 <= i < |t.communications| ==> t.communications[i].id == i + 1)
    && (forall i :: 0 <= i < |t.tasks| ==> t.tasks[i].id == i + 1)
  }

  predicate DealershipExists(t: Tables, id: nat) { 1 <= id <= |t.dealerships| }
  predicate LocationExists(t: Tables, id: nat) { 1 <= id <= |t.locations| }
  predicate RoleExists(t: Tables, id: nat) { 1 <= id <= |t.roles| }
  predicate UserExists(t: Tables, id: nat) { 1 <= id <= |t.users| }
  predicate LeadExists(t: Tables, id: nat) { 1 <= id <= |t.leads| }

  /** A nullable foreign key: NULL, or the id of an existing row of a table of size `n`. */
  predicate NullOrIn(k: Option<nat>, n: nat) {
    k.None? || 1 <= k.value <= n
  }

  /** Every FOREIGN KEY clause of the schema holds. */
  ghost predicate ForeignKeysHold(t: Tables) {
    && (forall i :: 0 <= i < |t.locations| ==> DealershipExists(t, t.locations[i].dealershipId))
    && (forall i :: 0 <= i < |t.users| ==>
          && NullOrIn(t.users[i].dealershipId, |t.dealerships|)
          && NullOrIn(t.users[i].locationId, |t.locations|)
          && RoleExists(t, t.users[i].roleId))
    && (forall i :: 0 <= i < |t.leads| ==>
          && DealershipExists(t, t.leads[i].dealershipId)
          && NullOrIn(t.leads[i].locationId, |t.locations|)
          && NullOrIn(t.leads[i].assignedUserId, |t.users|))
    && (forall i :: 0 <= i < |t.communications| ==>
          && LeadExists(t, t.communications[i].leadId)
          && NullOrIn(t.communications[i].userId, |t.users|))
    && (forall i :: 0 <= i < |t.tasks| ==>
          && NullOrIn(t.tasks[i].leadId, |t.leads|)
          && UserExists(t, t.tasks[i].userId))
  }

  /** roles.name and users.email are UNIQUE. */
  ghost predicate UniqueHolds(t: Tables) {
    && (forall i, j :: 0 <= i < j < |t.roles| ==> t.roles[i].name != t.roles[j].name)
    && (forall i, j :: 0 <= i < j < |t.users| ==> t.users[i].email != t.users[j].email)
  }

  ghost predicate Consistent(t: Tables) {
    IdsDense(t) && ForeignKeysHold(t) && UniqueHolds(t)
  }

  // ---------------------------------------------------------------------------
  // Values as the driver binds them and as column affinity stores them

  /** A value bound to a statement parameter, or stored in a column:
      `undefined` and `null` bind as NULL, a string as TEXT, and a JavaScript
      number as a REAL, here always one with an integral value `whole`. */
  datatype SqlValue = SqlNull | SqlInt(n: nat) | SqlReal(whole: nat) | SqlText(s: string)

  /** INTEGER affinity: text that is a plain run of digits, and a REAL with an
      integral value, are stored as that integer. */
  function IntegerAffinity(v: SqlValue): (r: SqlValue)
    ensures v.SqlText? && v.s != "" && Text.AllDigits(v.s) ==> r == SqlInt(Text.DigitsValue(v.s))
    ensures v.SqlReal? ==> r == SqlInt(v.whole)
    ensures !(v.SqlText? && v.s != "" && Text.AllDigits(v.s)) && !v.SqlReal? ==> r == v
  {
    if v.SqlText? && v.s != "" && Text.AllDigits(v.s) then SqlInt(Text.DigitsValue(v.s))
    else if v.SqlReal? then SqlInt(v.whole)
    else v
  }

  /** A number's decimal text, stored in an INTEGER column, is that number. */
  lemma DecimalAffinity(n: nat)
    ensures IntegerAffinity(SqlText(Text.Decimal(n))) == SqlInt(n)
  {
    Text.DecimalRoundTrip(n);
  }

  /** The text SQLite gives an integral REAL: its digits followed by '.0'. */
  function RealText(whole: nat): (s: string)
    ensures |s| >= 3 && s[|s| - 2..] == ".0"
    ensures Text.AllDigits(s[..|s| - 2]) && Text.DigitsValue(s[..|s| - 2]) == whole
  {
    var s := Text.Decimal(whole) + ".0";
    assert s[..|s| - 2] == Text.Decimal(whole);
    Text.DecimalRoundTrip(whole);
    s
  }

  /** TEXT affinity: a number is stored as its text, an integer as its
      decimal digits and a REAL as `RealText`; NULL and text are kept. */
  function TextAffinity(v: SqlValue): (r: SqlValue)
    ensures v.SqlInt? ==> r == SqlText(Text.Decimal(v.n))
    ensures v.SqlReal? ==> r == SqlText(RealText(v.whole))
    ensures v.SqlNull? || v.SqlText? ==> r == v
  {
    match v
    case SqlInt(n) => SqlText(Text.Decimal(n))
    case SqlReal(w) => SqlText(RealText(w))
    case _ => v
  }

  /** A REAL stored as text does not read back as an integer in an INTEGER
      column in this model: the '.0' is not a digit. */
  lemma RealTextNotDigits(whole: nat)
    ensures !Text.AllDigits(RealText(whole))
  {
    var s := RealText(whole);
    assert s[|s| - 2] == '.';
  }

  // ---------------------------------------------------------------------------
  // INSERT statements: each either appends exactly one row (ids and
  // timestamps from the engine, defaults from the schema) or violates a
  // constraint, in which case the statement throws and nothing changes.

  function InsertDealership(t: Tables, name: Option<string>): (r: Option<Tables>)
    ensures r.Some? <==> name.Some?
    ensures r.Some? ==> r.value.dealerships == t.dealerships + [Dealership(|t.dealerships| + 1, name.value, t.clock)]
    ensures r.Some? ==> r.value.(dealerships := t.dealerships, clock := t.clock) == t
    ensures r.Some? && Consistent(t) ==> Consistent(r.value)
  {
    if name.None? then None
    else Some(t.(dealerships := t.dealerships + [Dealership(|t.dealerships| + 1, name.value, t.clock)],
                 clock := t.clock + 1))
  }

  function InsertLocation(t: Tables, dealershipId: Option<nat>, name: Option<string>, address: Option<string>): (r: Option<Tables>)
    ensures r.Some? <==> dealershipId.Some? && DealershipExists(t, dealershipId.value) && name.Some?
    ensures r.Some? ==> r.value.locations == t.locations + [Location(|t.locations| + 1, dealershipId.value, name.value, address)]
    ensures r.Some? ==> r.value.(locations := t.locations, clock := t.clock) == t
    ensures r.Some? && Consistent(t) ==> Consistent(r.value)
  {
    if dealershipId.None? || !DealershipExists(t, dealershipId.value) then None
    else if name.None? then None
    else
      var row := Location(|t.locations| + 1, dealershipId.value, name.value, address);
      LocationAppendKeeps(t, row, t.clock + 1);
      Some(t.(locations := t.locations + [row], clock := t.clock + 1))
  }

  /** `INSERT OR IGNORE INTO roles (name)`: a name already present is ignored. */
  function InsertRoleOrIgnore(t: Tables, name: string): (r: Tables)
    ensures (exists i :: 0 <= i < |t.roles| && t.roles[i].name == name) ==> r == t
    ensures (forall i :: 0 <= i < |t.roles| ==> t.roles[i].name != name) ==>
              r.roles == t.roles + [Role(|t.roles| + 1, name)] && r.(roles := t.roles, clock := t.clock) == t
    ensures Consistent(t) ==> Consistent(r)
  {
    if exists i :: 0 <= i < |t.roles| && t.roles[i].name == name then t
    else t.(roles := t.roles + [Role(|t.roles| + 1, name)], clock := t.clock + 1)
  }

  /** Some user already holds this email. */
  predicate EmailTaken(t: Tables, email: string) {
    exists i :: 0 <= i < |t.users| && t.users[i].email == email
  }

  /** A new user row; `status` takes its default 'active'. */
  function InsertUser(t: Tables, dealershipId: Option<nat>, locationId: Option<nat>, roleId: nat,
                      name: Option<string>, email: Option<string>, password: PasswordHash): (r: Option<Tables>)
    ensures r.Some? <==>
              && NullOrIn(dealershipId, |t.dealerships|) && NullOrIn(locationId, |t.locations|)
              && RoleExists(t, roleId) && name.Some? && email.Some? && !EmailTaken(t, email.value)
    ensures r.Some? ==>
      r.value.users == t.users +
                [User(|t.users| + 1, dealershipId, locationId, roleId, name.value, email.value, password, "active", t.clock)]
    ensures r.Some? ==> r.value.(users := t.users, clock := t.clock) == t
    ensures r.Some? && Consistent(t) ==> Consistent(r.value)
  {
    if !NullOrIn(dealershipId, |t.dealerships|) || !NullOrIn(locationId, |t.locations|) || !RoleExists(t, roleId) then None
    else if name.None? || email.None? then None
    else if EmailTaken(t, email.value) then None
    else
      var row := User(|t.users| + 1, dealershipId, locationId, roleId, name.value, email.value, password, "active", t.clock);
      UserAppendKeeps(t, row, t.clock + 1);
      Some(t.(users := t.users + [row], clock := t.clock + 1))
  }

  /** The lead columns that come from the request. */
  datatype LeadFields = LeadFields(
    firstName: Option<string>, lastName: Option<string>, email: Option<string>,
    phone: Option<string>, source: Option<string>, vehicleInterest: Option<string>)

  /** A new lead row; when the statement does not name the `status` column
      (`status == None`), it takes its default 'new'. */
  function InsertLead(t: Tables, dealershipId: Option<nat>, locationId: Option<nat>, f: LeadFields, status: Option<string>): (r: Option<Tables>)
    ensures r.Some? <==>
              && dealershipId.Some? && DealershipExists(t, dealershipId.value) && NullOrIn(locationId, |t.locations|)
              && f.firstName.Some? && f.lastName.Some?
    ensures r.Some? ==>
      r.value.leads == t.leads +
                [Lead(|t.leads| + 1, dealershipId.value, locationId, None, f.firstName.value, f.lastName.value,
                      f.email, f.phone, f.source, status.GetOr("new"), f.vehicleInterest, t.clock, t.clock)]
    ensures r.Some? ==> r.value.(leads := t.leads, clock := t.clock) == t
    ensures r.Some? && Consistent(t) ==> Consistent(r.value)
  {
    if dealershipId.None? || !DealershipExists(t, dealershipId.value) || !NullOrIn(locationId, |t.locations|) then None
    else if f.firstName.None? || f.lastName.None? then None
    else
      var row := Lead(|t.leads| + 1, dealershipId.value, locationId, None, f.firstName.value, f.lastName.value,
                      f.email, f.phone, f.source, status.GetOr("new"), f.vehicleInterest, t.clock, t.clock);
      LeadAppendKeeps(t, row, t.clock + 1);
      Some(t.(leads := t.leads + [row], clock := t.clock + 1))
  }

  /** A new communication row. The values are stored after column affinity:
      lead_id and user_id are INTEGER, type and content are TEXT. */
  function InsertCommunication(t: Tables, leadId: SqlValue, userId: SqlValue, kind: SqlValue,
                               direction: string, content: SqlValue): (r: Option<Tables>)
    ensures r.Some? <==>
              && IntegerAffinity(leadId).SqlInt? && LeadExists(t, IntegerAffinity(leadId).n)
              && (IntegerAffinity(userId).SqlNull? || (IntegerAffinity(userId).SqlInt? && UserExists(t, IntegerAffinity(userId).n)))
              && TextAffinity(kind).SqlText? && TextAffinity(content).SqlText?
    ensures r.Some? ==>
      r.value.communications == t.communications +
                [Communication(|t.communications| + 1, IntegerAffinity(leadId).n,
                               if IntegerAffinity(userId).SqlInt? then Some(IntegerAffinity(userId).n) else None,
                               TextAffinity(kind).s, direction, TextAffinity(content).s, t.clock)]
    ensures r.Some? ==> r.value.(communications := t.communications, clock := t.clock) == t
    ensures r.Some? && Consistent(t) ==> Consistent(r.value)
  {
    var lead, user, k, c := IntegerAffinity(leadId), IntegerAffinity(userId), TextAffinity(kind), TextAffinity(content);
    if !lead.SqlInt? || !LeadExists(t, lead.n) then None
    else if !(user.SqlNull? || (user.SqlInt? && UserExists(t, user.n))) then None
    else if !k.SqlText? || !c.SqlText? then None
    else
      var userCol := if user.SqlInt? then Some(user.n) else None;
      var row := Communication(|t.communications| + 1, lead.n, userCol, k.s, direction, c.s, t.clock);
      CommunicationAppendKeeps(t, row, t.clock + 1);
      Some(t.(communications := t.communications + [row], clock := t.clock + 1))
  }

  // ---------------------------------------------------------------------------
  // Appending one row that meets its table's constraints keeps the database consistent

  lemma LocationAppendKeeps(t: Tables, row: Location, clock: nat)
    requires row.id == |t.locations| + 1 && DealershipExists(t, row.dealershipId)
    ensures Consistent(t) ==> Consistent(t.(locations := t.locations + [row], clock := clock))
  {
    var r := t.(locations := t.locations + [row], clock := clock);
    if Consistent(t) {
      assert forall i :: 0 <= i < |t.locations| ==> r.locations[i] == t.locations[i];
      assert IdsDense(r);
      assert ForeignKeysHold(r);
      assert UniqueHolds(r);
    }
  }

  lemma UserAppendKeeps(t: Tables, row: User, clock: nat)
    requires row.id == |t.users| + 1
    requires NullOrIn(row.dealershipId, |t.dealerships|) && NullOrIn(row.locationId, |t.locations|)
    requires RoleExists(t, row.roleId) && !EmailTaken(t, row.email)
    ensures Consistent(t) ==> Consistent(t.(users := t.users + [row], clock := clock))
  {
    var r := t.(users := t.users + [row], clock := clock);
    if Consistent(t) {
      assert forall i :: 0 <= i < |t.users| ==> r.users[i] == t.users[i];
      assert IdsDense(r);
      assert ForeignKeysHold(r);
      assert UniqueHolds(r);
    }
  }

  lemma LeadAppendKeeps(t: Tables, row: Lead, clock: nat)
    requires row.id == |t.leads| + 1 && DealershipExists(t, row.dealershipId)
    requires NullOrIn(row.locationId, |t.locations|) && NullOrIn(row.assignedUserId, |t.users|)
    ensures Consistent(t) ==> Consistent(t.(leads := t.leads + [row], clock := clock))
  {
    var r := t.(leads := t.leads + [row], clock := clock);
    if Consistent(t) {
      assert forall i :: 0 <= i < |t.leads| ==> r.leads[i] == t.leads[i];
      assert IdsDense(r);
      assert ForeignKeysHold(r);
      assert UniqueHolds(r);
    }
  }

  lemma CommunicationAppendKeeps(t: Tables, row: Communication, clock: nat)
    requires row.id == |t.communications| + 1 && LeadExists(t, row.leadId) && NullOrIn(row.userId, |t.users|)
    ensures Consistent(t) ==> Consistent(t.(communications := t.communications + [row], clock := clock))
  {
    var r := t.(communications := t.communications + [row], clock := clock);
    if Consistent(t) {
      assert forall i :: 0 <= i < |t.communications| ==> r.communications[i] == t.communications[i];
      assert IdsDense(r);
      assert ForeignKeysHold(r);
      assert UniqueHolds(r);
    }
  }

  /** A new task row; `status` takes its default 'pending'. */
  function InsertTask(t: Tables, leadId: Option<nat>, userId: nat, title: Option<string>,
                      description: Option<string>, dueDate: Option<nat>): (r: Option<Tables>)
    ensures r.Some? <==> NullOrIn(leadId, |t.leads|) && UserExists(t, userId) && title.Some?
    ensures r.Some? ==>
      r.value.tasks == t.tasks +
                [Task(|t.tasks| + 1, leadId, userId, title.value, description, dueDate, "pending", t.clock)]
    ensures r.Some? ==> r.value.(tasks := t.tasks, clock := t.clock) == t
    ensures r.Some? && Consistent(t) ==> Consistent(r.value)
  {
    if !NullOrIn(leadId, |t.leads|) || !UserExists(t, userId) || title.None? then None
    else Some(t.(tasks := t.tasks + [Task(|t.tasks| + 1, leadId, userId, title.value, description, dueDate, "pending", t.clock)],
                 clock := t.clock + 1))
  }

  // ---------------------------------------------------------------------------
  // Row lookups (`SELECT ... WHERE <key> = ?` followed by `.get()`, which
  // returns the first matching row in table order)

  function FindRoleByName(roles: seq<Role>, name: string): (r: Option<Role>)
    ensures r.Some? ==> r.value in roles && r.value.name == name
    ensures r.None? <==> forall i :: 0 <= i < |roles| ==> roles[i].name != name
  {
    if roles == [] then None
    else if roles[0].name == name then Some(roles[0])
    else FindRoleByName(roles[1..], name)
  }

  function FindRoleById(roles: seq<Role>, id: nat): (r: Option<Role>)
    ensures r.Some? ==> r.value in roles && r.value.id == id
    ensures r.None? <==> forall i :: 0 <= i < |roles| ==> roles[i].id != id
  {
    if roles == [] then None
    else if roles[0].id == id then Some(roles[0])
    else FindRoleById(roles[1..], id)
  }

  function FindUserByEmail(users: seq<User>, email: string): (r: Option<User>)
    ensures r.Some? ==> r.value in users && r.value.email == email
    ensures r.None? <==> forall i :: 0 <= i < |users| ==> users[i].email != email
  {
    if users == [] then None
    else if users[0].email == email then Some(users[0])
    else FindUserByEmail(users[1..], email)
  }

  function FindUserById(users: seq<User>, id: nat): (r: Option<User>)
    ensures r.Some? ==> r.value in users && r.value.id == id
    ensures r.None? <==> forall i :: 0 <= i < |users| ==> users[i].id != id
  {
    if users == [] then None
    else if users[0].id == id then Some(users[0])
    else FindUserById(users[1..], id)
  }

  function FindDealershipById(dealerships: seq<Dealership>, id: nat): (r: Option<Dealership>)
    ensures r.Some? ==> r.value in dealerships && r.value.id == id
    ensures r.None? <==> forall i :: 0 <= i < |dealerships| ==> dealerships[i].id != id
  {
    if dealerships == [] then None
    else if dealerships[0].id == id then Some(dealerships[0])
    else FindDealershipById(dealerships[1..], id)
  }

  function FindLeadById(leads: seq<Lead>, id: int): (r: Option<Lead>)
    ensures r.Some? ==> r.value in leads && r.value.id == id
    ensures r.None? <==> forall i :: 0 <= i < |leads| ==> leads[i].id != id
  {
    if leads == [] then None
    else if leads[0].id == id then Some(leads[0])
    else FindLeadById(leads[1..], id)
  }

  /** With dense ids the lead with id `k` is the `k`-th row. */
  lemma FindLeadDense(t: Tables, id: int)
    requires IdsDense(t)
    ensures 1 <= id <= |t.leads| ==> FindLeadById(t.leads, id) == Some(t.leads[id - 1])
    ensures !(1 <= id <= |t.leads|) ==> FindLeadById(t.leads, id).None?
  {
    if 1 <= id <= |t.leads| {
      FindShifted(t.leads, id, 0);
    }
  }

  lemma {:induction false} FindShifted(leads: seq<Lead>, id: nat, offset: nat)
    requires forall i :: 0 <= i < |leads| ==> leads[i].id == i + 1 + offset
    requires 1 + offset <= id <= |leads| + offset
    ensures FindLeadById(leads, id) == Some(leads[id - 1 - offset])
  {
    if id > 1 + offset {
      FindShifted(leads[1..], id, offset + 1);
    }
  }
}
