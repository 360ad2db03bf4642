/** The state-changing route handlers and the socket handlers of server.ts.

    What each write route does to the tables is a function from the tables
    before to an `Outcome` (the tables after, and the reply); the lemmas
    about those functions relate a write to the read routes of `Queries`
    (what was created can be read back, logged into, listed). The `Server`
    class holds the mutable state, the database and the socket rooms, and
    its methods perform the handlers step by step; each is proved to leave
    exactly the state its outcome function describes. */
module Api {
  import opened Base
  import opened Store
  import opened Auth
  import opened Queries
  import Text

  /** The tables after a request, and the reply. A handler whose statement
      throws leaves the tables as they were: a single INSERT that violates a
      constraint changes nothing, and a transaction is rolled back. */
  datatype Outcome<+T> = Outcome(tables: Tables, reply: Reply<T>)

  // ---------------------------------------------------------------------------
  // POST /api/dealerships

  /** The JSON body of a new dealership with its principal. */
  datatype DealershipForm = DealershipForm(name: Option<string>, principalName: Option<string>,
                                           principalEmail: Option<string>, principalPassword: Option<string>)

  /** One transaction: insert the dealership, look up the 'principal' role,
      hash the password, insert the principal with the new dealership id. Any
      failure (a NULL name, a missing role, a missing password, a taken email)
      throws out of the transaction, which rolls both rows back, and out of
      the handler (500). */
  function CreateDealershipOutcome(t: Tables, f: DealershipForm): (o: Outcome<nat>)
    ensures o.reply.Ok? <==>
      && f.name.Some? && FindRoleByName(t.roles, Principal).Some? && f.principalPassword.Some?
      && RoleExists(t, FindRoleByName(t.roles, Principal).value.id)
      && f.principalName.Some? && f.principalEmail.Some? && !EmailTaken(t, f.principalEmail.value)
    ensures !o.reply.Ok? ==> o == Outcome(t, Crashed)
    ensures o.reply.Ok? ==>
      var dealerId := |t.dealerships| + 1;
      && o.reply == Ok(200, dealerId)
      && o.tables.dealerships == t.dealerships + [Dealership(dealerId, f.name.value, t.clock)]
      && o.tables.users == t.users +
           [User(|t.users| + 1, Some(dealerId), None, FindRoleByName(t.roles, Principal).value.id,
                 f.principalName.value, f.principalEmail.value, HashPassword(f.principalPassword.value),
                 "active", t.clock + 1)]
      && o.tables.(dealerships := t.dealerships, users := t.users, clock := t.clock) == t
    ensures Consistent(t) ==> Consistent(o.tables)
  {
    match InsertDealership(t, f.name)
    case None => Outcome(t, Crashed)
    case Some(t1) =>
      var role := FindRoleByName(t1.roles, Principal);
      if role.None? || f.principalPassword.None? then Outcome(t, Crashed)
      else
        match InsertUser(t1, Some(|t.dealerships| + 1), None, role.value.id,
                         f.principalName, f.principalEmail, HashPassword(f.principalPassword.value))
        case None => Outcome(t, Crashed)
        case Some(t2) => Outcome(t2, Ok(200, |t.dealerships| + 1))
  }

  /** With dense ids, the role a name lookup finds is the row at position `id - 1`. */
  lemma RoleFoundAtId(t: Tables, name: string)
    requires IdsDense(t) && FindRoleByName(t.roles, name).Some?
    ensures var role := FindRoleByName(t.roles, name).value;
      1 <= role.id <= |t.roles| && t.roles[role.id - 1] == role && role.name == name
  {
    var role := FindRoleByName(t.roles, name).value;
    var k :| 0 <= k < |t.roles| && t.roles[k] == role;
  }

  /** The principal of a new dealership can log in with the email and the
      password of the form, and their token names the principal role and the
      new dealership. */
  lemma CreatedPrincipalLogsIn(t: Tables, f: DealershipForm)
    requires Consistent(t) && CreateDealershipOutcome(t, f).reply.Ok?
    ensures var o := CreateDealershipOutcome(t, f);
      Login(o.tables, f.principalEmail, f.principalPassword).Ok?
      && Login(o.tables, f.principalEmail, f.principalPassword).value.claims ==
           Claims(|t.users| + 1, Principal, Some(|t.dealerships| + 1))
  {
    var o := CreateDealershipOutcome(t, f);
    RoleFoundAtId(t, Principal);
    LoginAsUser(o.tables, |t.users|, f.principalPassword.value);
  }

  /** A new dealership is the last row of the dealership list; the role list
      does not change. */
  lemma CreatedDealershipListed(t: Tables, f: DealershipForm)
    requires CreateDealershipOutcome(t, f).reply.Ok?
    ensures var o := CreateDealershipOutcome(t, f);
      && ListDealerships(o.tables) == ListDealerships(t) + [Dealership(|t.dealerships| + 1, f.name.value, t.clock)]
      && ListRoles(o.tables) == ListRoles(t)
  {
    var o := CreateDealershipOutcome(t, f);
    assert o.tables.roles == t.roles by {
      assert o.tables.(dealerships := t.dealerships, users := t.users, clock := t.clock) == t;
    }
  }

  // ---------------------------------------------------------------------------
  // POST /api/locations

  /** The JSON body of a new location. */
  datatype LocationForm = LocationForm(dealershipId: Option<nat>, name: Option<string>, address: Option<string>)

  /** A single INSERT: the dealership must exist and the name be present;
      otherwise it throws (500). The address is optional. */
  function CreateLocationOutcome(t: Tables, f: LocationForm): (o: Outcome<nat>)
    ensures o.reply.Ok? <==> f.dealershipId.Some? && DealershipExists(t, f.dealershipId.value) && f.name.Some?
    ensures !o.reply.Ok? ==> o == Outcome(t, Crashed)
    ensures o.reply.Ok? ==>
      && o.reply == Ok(200, |t.locations| + 1)
      && o.tables.locations == t.locations + [Location(|t.locations| + 1, f.dealershipId.value, f.name.value, f.address)]
      && o.tables.(locations := t.locations, clock := t.clock) == t
    ensures Consistent(t) ==> Consistent(o.tables)
  {
    match InsertLocation(t, f.dealershipId, f.name, f.address)
    case None => Outcome(t, Crashed)
    case Some(t1) => Outcome(t1, Ok(200, |t.locations| + 1))
  }

  /** A new location is listed to every member of its dealership, and to a
      super_admin as the last row. */
  lemma CreatedLocationListed(t: Tables, f: LocationForm, c: Claims)
    requires Consistent(t) && CreateLocationOutcome(t, f).reply.Ok?
    ensures var o := CreateLocationOutcome(t, f);
      var loc := Location(|t.locations| + 1, f.dealershipId.value, f.name.value, f.address);
      && (c.role != SuperAdmin && c.dealershipId == f.dealershipId ==>
            LocationRow(loc, None) in ListLocations(o.tables, c))
      && (c.role == SuperAdmin ==> ListLocations(o.tables, c)[|t.locations|].location == loc)
  {
    var o := CreateLocationOutcome(t, f);
    assert o.tables.locations[|t.locations|] == Location(|t.locations| + 1, f.dealershipId.value, f.name.value, f.address);
  }

  // ---------------------------------------------------------------------------
  // POST /api/users

  /** The JSON body of a new user. */
  datatype UserForm = UserForm(name: Option<string>, email: Option<string>, password: Option<string>,
                               roleName: Option<string>, locationId: Option<nat>)

  /** An admin asking for a principal is refused (403). Otherwise the role is
      looked up by name (`role.id` throws when none is found), the password
      hashed (throws when absent) and the user inserted into the dealership
      of the caller's token; an INSERT that violates a constraint throws. No
      other role is checked against the caller's. */
  function CreateUserOutcome(t: Tables, c: Claims, f: UserForm): (o: Outcome<nat>)
    ensures c.role == Admin && f.roleName == Some(Principal) ==>
      o == Outcome(t, Refused(403, "Admins cannot create Principals"))
    ensures o.reply.Refused? ==> c.role == Admin && f.roleName == Some(Principal)
    ensures o.reply.Ok? <==>
      && !(c.role == Admin && f.roleName == Some(Principal))
      && f.roleName.Some? && FindRoleByName(t.roles, f.roleName.value).Some? && f.password.Some?
      && NullOrIn(c.dealershipId, |t.dealerships|) && NullOrIn(f.locationId, |t.locations|)
      && RoleExists(t, FindRoleByName(t.roles, f.roleName.value).value.id)
      && f.name.Some? && f.email.Some? && !EmailTaken(t, f.email.value)
    ensures o.reply.Crashed? ==> o.tables == t
    ensures o.reply.Ok? ==>
      && o.reply == Ok(200, |t.users| + 1)
      && o.tables.users == t.users +
           [User(|t.users| + 1, c.dealershipId, f.locationId, FindRoleByName(t.roles, f.roleName.value).value.id,
                 f.name.value, f.email.value, HashPassword(f.password.value), "active", t.clock)]
      && o.tables.(users := t.users, clock := t.clock) == t
    ensures Consistent(t) ==> Consistent(o.tables)
  {
    if c.role == Admin && f.roleName == Some(Principal) then
      Outcome(t, Refused(403, "Admins cannot create Principals"))
    else if f.roleName.None? || FindRoleByName(t.roles, f.roleName.value).None? || f.password.None? then
      Outcome(t, Crashed)
    else
      match InsertUser(t, c.dealershipId, f.locationId, FindRoleByName(t.roles, f.roleName.value).value.id,
                       f.name, f.email, HashPassword(f.password.value))
      case None => Outcome(t, Crashed)
      case Some(t1) => Outcome(t1, Ok(200, |t.users| + 1))
  }

  /** A created user can log in with the email and password of the form; the
      token carries the role named in the form and the creator's dealership. */
  lemma CreatedUserLogsIn(t: Tables, c: Claims, f: UserForm)
    requires Consistent(t) && CreateUserOutcome(t, c, f).reply.Ok?
    ensures var o := CreateUserOutcome(t, c, f);
      Login(o.tables, f.email, f.password).Ok?
      && Login(o.tables, f.email, f.password).value.claims == Claims(|t.users| + 1, f.roleName.value, c.dealershipId)
  {
    var o := CreateUserOutcome(t, c, f);
    RoleFoundAtId(t, f.roleName.value);
    LoginAsUser(o.tables, |t.users|, f.password.value);
  }

  /** The one role check of user creation: a principal or an admin may create
      a super_admin, whose token then passes every super_admin-only route. */
  lemma CreatorMayGrantSuperAdmin(t: Tables, c: Claims, f: UserForm)
    requires Consistent(t) && c.role in [Principal, Admin] && f.roleName == Some(SuperAdmin)
    requires FindRoleByName(t.roles, SuperAdmin).Some? && f.password.Some?
    requires NullOrIn(c.dealershipId, |t.dealerships|) && NullOrIn(f.locationId, |t.locations|)
    requires f.name.Some? && f.email.Some? && !EmailTaken(t, f.email.value)
    ensures var o := CreateUserOutcome(t, c, f);
      o.reply.Ok? && Login(o.tables, f.email, f.password).Ok?
      && Login(o.tables, f.email, f.password).value.claims.role == SuperAdmin
  {
    RoleFoundAtId(t, SuperAdmin);
    CreatedUserLogsIn(t, c, f);
  }

  // ---------------------------------------------------------------------------
  // POST /api/leads

  /** The JSON body of a new lead. */
  datatype LeadForm = LeadForm(fields: LeadFields, locationId: Option<nat>)

  /** A single INSERT into the dealership of the caller's token; the status
      is left to its default 'new'. A token without a dealership (a
      super_admin's) violates NOT NULL, and the handler throws. */
  function CreateLeadOutcome(t: Tables, c: Claims, f: LeadForm): (o: Outcome<nat>)
    ensures o.reply.Ok? <==>
      && c.dealershipId.Some? && DealershipExists(t, c.dealershipId.value) && NullOrIn(f.locationId, |t.locations|)
      && f.fields.firstName.Some? && f.fields.lastName.Some?
    ensures !o.reply.Ok? ==> o == Outcome(t, Crashed)
    ensures o.reply.Ok? ==>
      && o.reply == Ok(200, |t.leads| + 1)
      && o.tables.leads == t.leads +
           [Lead(|t.leads| + 1, c.dealershipId.value, f.locationId, None, f.fields.firstName.value,
                 f.fields.lastName.value, f.fields.email, f.fields.phone, f.fields.source, "new",
                 f.fields.vehicleInterest, t.clock, t.clock)]
      && o.tables.(leads := t.leads, clock := t.clock) == t
    ensures Consistent(t) ==> Consistent(o.tables)
  {
    match InsertLead(t, c.dealershipId, f.locationId, f.fields, None)
    case None => Outcome(t, Crashed)
    case Some(t1) => Outcome(t1, Ok(200, |t.leads| + 1))
  }

  /** The creator of a lead can open it by the id in the reply and finds it
      in the lead list. */
  lemma CreatedLeadVisible(t: Tables, c: Claims, f: LeadForm)
    requires Consistent(t) && CreateLeadOutcome(t, c, f).reply.Ok?
    ensures var o := CreateLeadOutcome(t, c, f);
      var lead := o.tables.leads[|t.leads|];
      && GetLead(o.tables, c, Text.Decimal(|t.leads| + 1)) == Ok(200, lead)
      && lead in ListLeads(o.tables, c)
  {
    var o := CreateLeadOutcome(t, c, f);
    var lead := o.tables.leads[|t.leads|];
    GetLeadByNumber(o.tables, c, |t.leads| + 1);
    if c.role == SuperAdmin {
      assert lead in multiset(ListLeads(o.tables, c));
    }
  }

  // ---------------------------------------------------------------------------
  // POST /api/tasks

  /** The JSON body of a new task. */
  datatype TaskForm = TaskForm(leadId: Option<nat>, title: Option<string>, description: Option<string>,
                               dueDate: Option<nat>)

  /** A single INSERT of a task assigned to the caller; the status is left to
      its default 'pending'. */
  function CreateTaskOutcome(t: Tables, c: Claims, f: TaskForm): (o: Outcome<nat>)
    ensures o.reply.Ok? <==> NullOrIn(f.leadId, |t.leads|) && UserExists(t, c.id) && f.title.Some?
    ensures !o.reply.Ok? ==> o == Outcome(t, Crashed)
    ensures o.reply.Ok? ==>
      && o.reply == Ok(200, |t.tasks| + 1)
      && o.tables.tasks == t.tasks +
           [Task(|t.tasks| + 1, f.leadId, c.id, f.title.value, f.description, f.dueDate, "pending", t.clock)]
      && o.tables.(tasks := t.tasks, clock := t.clock) == t
    ensures Consistent(t) ==> Consistent(o.tables)
  {
    match InsertTask(t, f.leadId, c.id, f.title, f.description, f.dueDate)
    case None => Outcome(t, Crashed)
    case Some(t1) => Outcome(t1, Ok(200, |t.tasks| + 1))
  }

  /** Whoever creates a task finds it in their task list, whatever their
      role and whichever lead it is about. */
  lemma CreatedTaskListed(t: Tables, c: Claims, f: TaskForm)
    requires CreateTaskOutcome(t, c, f).reply.Ok?
    ensures var o := CreateTaskOutcome(t, c, f);
      exists row :: row in ListTasks(o.tables, c) && row.task == o.tables.tasks[|t.tasks|]
  {
    var o := CreateTaskOutcome(t, c, f);
    var rows := TaskRows(o.tables.tasks, o.tables.leads);
    var row := rows[|t.tasks|];
    assert row in rows;
    assert TaskVisible(row.task, o.tables.leads, c);
  }

  // ---------------------------------------------------------------------------
  // POST /api/webhooks/leads

  /** The JSON body of a lead pushed by an outside source. */
  datatype WebhookForm = WebhookForm(firstName: Option<string>, lastName: Option<string>, email: Option<string>,
                                     phone: Option<string>, vehicleInterest: Option<string>, source: Option<string>)

  /** No authentication. With no dealership at all, 400; otherwise the lead
      goes to the first dealership row, its source defaulting to 'Webhook'
      when missing or empty, and the reply is 201. A violated constraint
      throws (500). */
  function WebhookOutcome(t: Tables, f: WebhookForm): (o: Outcome<string>)
    ensures |t.dealerships| == 0 ==> o == Outcome(t, Refused(400, "No dealership configured"))
    ensures |t.dealerships| != 0 ==>
      (o.reply.Ok? <==> DealershipExists(t, t.dealerships[0].id) && f.firstName.Some? && f.lastName.Some?)
    ensures o.reply.Crashed? ==> o.tables == t
    ensures o.reply.Ok? ==>
      && o.reply == Ok(201, "success")
      && o.tables.leads == t.leads +
           [Lead(|t.leads| + 1, t.dealerships[0].id, None, None, f.firstName.value, f.lastName.value,
                 f.email, f.phone, Some(OrElse(f.source, "Webhook")), "new", f.vehicleInterest, t.clock, t.clock)]
      && o.tables.(leads := t.leads, clock := t.clock) == t
    ensures Consistent(t) ==> Consistent(o.tables)
  {
    if |t.dealerships| == 0 then Outcome(t, Refused(400, "No dealership configured"))
    else
      var fields := LeadFields(f.firstName, f.lastName, f.email, f.phone,
                               Some(OrElse(f.source, "Webhook")), f.vehicleInterest);
      match InsertLead(t, Some(t.dealerships[0].id), None, fields, None)
      case None => Outcome(t, Crashed)
      case Some(t1) => Outcome(t1, Ok(201, "success"))
  }

  /** In a consistent database a webhook lead with both names is always
      accepted, lands in dealership 1 with a non-empty source, and is listed
      to every member of that dealership. */
  lemma WebhookLeadReachesFirstDealership(t: Tables, f: WebhookForm, c: Claims)
    requires Consistent(t) && |t.dealerships| != 0 && f.firstName.Some? && f.lastName.Some?
    ensures var o := WebhookOutcome(t, f);
      var lead := o.tables.leads[|t.leads|];
      && o.reply == Ok(201, "success")
      && lead.dealershipId == 1 && Truthy(lead.source)
      && (c.dealershipId == Some(1) ==> lead in ListLeads(o.tables, c))
  {
    var o := WebhookOutcome(t, f);
    assert t.dealerships[0].id == 1;
    if c.role == SuperAdmin {
      assert o.tables.leads[|t.leads|] in multiset(ListLeads(o.tables, c));
    }
  }

  // ---------------------------------------------------------------------------
  // Socket events: join-lead and send-message

  /** A JavaScript value as socket.io delivers it from the client. Numbers
      are limited to non-negative integers. */
  datatype JsValue = Undefined | Null | Bool(b: bool) | Num(n: nat) | Str(s: string)

  predicate JsTruthy(v: JsValue) {
    match v
    case Undefined | Null => false
    case Bool(b) => b
    case Num(n) => n != 0
    case Str(s) => s != ""
  }

  /** `v || fallback`. */
  function JsOr(v: JsValue, fallback: JsValue): (r: JsValue)
    ensures JsTruthy(v) ==> r == v
    ensures !JsTruthy(v) ==> r == fallback
  {
    if JsTruthy(v) then v else fallback
  }

  /** `${v}` in a template literal. */
  function Render(v: JsValue): string {
    match v
    case Undefined => "undefined"
    case Null => "null"
    case Bool(b) => if b then "true" else "false"
    case Num(n) => Text.Decimal(n)
    case Str(s) => s
  }

  /** A value bound to a statement parameter: `undefined` and `null` are
      NULL, a number is a REAL (the driver binds every JavaScript number as a
      double) and a string is TEXT; a boolean cannot be bound and the
      statement throws. */
  function Bind(v: JsValue): (r: Option<SqlValue>)
    ensures r.None? <==> v.Bool?
    ensures v.Undefined? || v.Null? ==> r == Some(SqlNull)
    ensures v.Num? ==> r == Some(SqlReal(v.n))
    ensures v.Str? ==> r == Some(SqlText(v.s))
  {
    match v
    case Undefined | Null => Some(SqlNull)
    case Bool(_) => None
    case Num(n) => Some(SqlReal(n))
    case Str(s) => Some(SqlText(s))
  }

  /** The room of a lead: `lead-${leadId}`. */
  function RoomName(leadId: JsValue): (name: string)
    ensures |name| > 5 || leadId == Str("")
  {
    "lead-" + Render(leadId)
  }

  /** A number and its decimal text name the same room. */
  lemma RoomOfNumberText(n: nat)
    ensures RoomName(Num(n)) == RoomName(Str(Text.Decimal(n)))
  {
  }

  /** Two different lead numbers name different rooms. */
  lemma RoomNamesDistinct(m: nat, n: nat)
    requires m != n
    ensures RoomName(Num(m)) != RoomName(Num(n))
  {
    if RoomName(Num(m)) == RoomName(Num(n)) {
      assert RoomName(Num(m))[5..] == Text.Decimal(m);
      assert RoomName(Num(n))[5..] == Text.Decimal(n);
      Text.DecimalInjective(m, n);
    }
  }

  /** The payload of `send-message`; it is broadcast as received. */
  datatype Message = Message(leadId: JsValue, userId: JsValue, kind: JsValue, content: JsValue)

  /** A broadcast: the sockets in the room at the time, the event name and the payload. */
  datatype Delivery = Delivery(recipients: set<nat>, event: string, payload: Message)

  /** The sockets that have joined room `name`. */
  function Members(rooms: map<string, set<nat>>, name: string): set<nat> {
    if name in rooms then rooms[name] else {}
  }

  /** `socket.join(name)`: the socket is added to the room; no other room changes. */
  function Joined(rooms: map<string, set<nat>>, socket: nat, name: string): (r: map<string, set<nat>>)
    ensures Members(r, name) == Members(rooms, name) + {socket}
    ensures forall other :: other != name ==> Members(r, other) == Members(rooms, other)
  {
    rooms[name := Members(rooms, name) + {socket}]
  }

  /** `send-message`: nothing at all when the lead id or the content is
      falsy; otherwise the payload goes to the room of the lead. */
  function Broadcast(rooms: map<string, set<nat>>, m: Message): (d: Option<Delivery>)
    ensures d.Some? <==> JsTruthy(m.leadId) && JsTruthy(m.content)
    ensures d.Some? ==> d.value.recipients == Members(rooms, RoomName(m.leadId)) && d.value.payload == m
    ensures d.Some? ==> d.value.event == "new-message"
  {
    if !JsTruthy(m.leadId) || !JsTruthy(m.content) then None
    else Some(Delivery(Members(rooms, RoomName(m.leadId)), "new-message", m))
  }

  /** When the INSERT of `send-message` adds a row: the lead id and the
      content are truthy; no bound value (lead id, `userId || null`, `type ||
      'internal'`, content) is a boolean; the lead id reads as the id of an
      existing lead; and the user id is NULL or reads as the id of an
      existing user. */
  predicate MessageStored(t: Tables, m: Message) {
    var user, kind := JsOr(m.userId, Null), JsOr(m.kind, Str("internal"));
    && JsTruthy(m.leadId) && JsTruthy(m.content)
    && !m.leadId.Bool? && !m.content.Bool? && !user.Bool? && !kind.Bool?
    && IntegerAffinity(Bind(m.leadId).value).SqlInt? && LeadExists(t, IntegerAffinity(Bind(m.leadId).value).n)
    && (user == Null || (IntegerAffinity(Bind(user).value).SqlInt? && UserExists(t, IntegerAffinity(Bind(user).value).n)))
  }

  /** The INSERT of `send-message`, after the broadcast: the user id defaults
      to NULL and the type to 'internal' when falsy, the direction is always
      'outbound'. A statement that throws is caught and logged, so a failed
      insert leaves the tables as they were. */
  function StoreMessage(t: Tables, m: Message): (r: Tables)
    ensures !JsTruthy(m.leadId) || !JsTruthy(m.content) ==> r == t
    ensures r != t <==> MessageStored(t, m)
    ensures r == t || r.(communications := t.communications, clock := t.clock) == t
    ensures r != t ==>
      var user := JsOr(m.userId, Null);
      r.communications == t.communications +
        [Communication(|t.communications| + 1, IntegerAffinity(Bind(m.leadId).value).n,
                       if user == Null then None else Some(IntegerAffinity(Bind(user).value).n),
                       TextAffinity(Bind(JsOr(m.kind, Str("internal"))).value).s, "outbound",
                       TextAffinity(Bind(m.content).value).s, t.clock)]
    ensures Consistent(t) ==> Consistent(r)
  {
    if !JsTruthy(m.leadId) || !JsTruthy(m.content) then t
    else
      var lead, user, kind, content :=
        Bind(m.leadId), Bind(JsOr(m.userId, Null)), Bind(JsOr(m.kind, Str("internal"))), Bind(m.content);
      if lead.None? || user.None? || kind.None? || content.None? then t
      else
        match InsertCommunication(t, lead.value, user.value, kind.value, "outbound", content.value)
        case Some(t1) => t1
        case None => t
  }

  /** A message for an existing lead, given by number or by its decimal text,
      from no particular user and without a type, is stored as an outbound
      'internal' note on that lead with its text content. */
  lemma StoreMessageRecordsNote(t: Tables, leadId: JsValue, n: nat, content: string)
    requires leadId == Num(n) || leadId == Str(Text.Decimal(n))
    requires LeadExists(t, n) && content != ""
    ensures StoreMessage(t, Message(leadId, Undefined, Undefined, Str(content))).communications ==
      t.communications + [Communication(|t.communications| + 1, n, None, "internal", "outbound", content, t.clock)]
  {
    DecimalAffinity(n);
    assert n != 0;
  }

  /** A numeric content is bound as a REAL, so the TEXT column stores it with
      a '.0': sending content 5 stores '5.0', not '5'. */
  lemma StoreMessageNumericContent(t: Tables, n: nat, k: nat)
    requires LeadExists(t, n) && k != 0
    ensures StoreMessage(t, Message(Num(n), Undefined, Undefined, Num(k))).communications ==
      t.communications + [Communication(|t.communications| + 1, n, None, "internal", "outbound", RealText(k), t.clock)]
    ensures RealText(k) != Text.Decimal(k)
  {
    RealTextNotDigits(k);
  }

  /** A socket that has joined a lead's room receives every message sent for
      that lead afterwards, by number or by text; a message for another lead
      number does not reach it through that room. */
  lemma JoinedSocketReceives(rooms: map<string, set<nat>>, socket: nat, n: nat, m: Message)
    requires m.leadId == Num(n) || m.leadId == Str(Text.Decimal(n))
    requires JsTruthy(m.content) && n != 0
    ensures var d := Broadcast(Joined(rooms, socket, RoomName(Num(n))), m);
      d.Some? && socket in d.value.recipients
  {
    RoomOfNumberText(n);
    Text.DecimalRoundTrip(n);
  }

  // ---------------------------------------------------------------------------
  // The running server

  /** The state the handlers share: the database (after `initDb`) and the
      socket rooms. */
  class Server {
    var tables: Tables
    var rooms: map<string, set<nat>>

    ghost predicate Valid()
      reads this
    {
      Consistent(tables)
    }

    constructor (t: Tables)
      requires Consistent(t)
      ensures Valid() && tables == t && rooms == map[]
    {
      tables := t;
      rooms := map[];
    }

    /** The dealership transaction: a snapshot is taken when it begins and
        restored when any step throws. */
    method CreateDealership(f: DealershipForm) returns (reply: Reply<nat>)
      requires Valid()
      modifies this
      ensures Valid() && rooms == old(rooms)
      ensures Outcome(tables, reply) == CreateDealershipOutcome(old(tables), f)
    {
      var snapshot := tables;
      var dealer := InsertDealership(tables, f.name);
      if dealer.None? {
        tables := snapshot;
        return Crashed;
      }
      tables := dealer.value;
      var dealerId := |snapshot.dealerships| + 1;
      var role := FindRoleByName(tables.roles, Principal);
      if role.None? || f.principalPassword.None? {
        tables := snapshot;
        return Crashed;
      }
      var principal := InsertUser(tables, Some(dealerId), None, role.value.id,
                                  f.principalName, f.principalEmail, HashPassword(f.principalPassword.value));
      if principal.None? {
        tables := snapshot;
        return Crashed;
      }
      tables := principal.value;
      reply := Ok(200, dealerId);
    }

    method CreateLocation(f: LocationForm) returns (reply: Reply<nat>)
      requires Valid()
      modifies this
      ensures Valid() && rooms == old(rooms)
      ensures Outcome(tables, reply) == CreateLocationOutcome(old(tables), f)
    {
      var o := CreateLocationOutcome(tables, f);
      tables, reply := o.tables, o.reply;
    }

    method CreateUser(c: Claims, f: UserForm) returns (reply: Reply<nat>)
      requires Valid()
      modifies this
      ensures Valid() && rooms == old(rooms)
      ensures Outcome(tables, reply) == CreateUserOutcome(old(tables), c, f)
    {
      var o := CreateUserOutcome(tables, c, f);
      tables, reply := o.tables, o.reply;
    }

    method CreateLead(c: Claims, f: LeadForm) returns (reply: Reply<nat>)
      requires Valid()
      modifies this
      ensures Valid() && rooms == old(rooms)
      ensures Outcome(tables, reply) == CreateLeadOutcome(old(tables), c, f)
    {
      var o := CreateLeadOutcome(tables, c, f);
      tables, reply := o.tables, o.reply;
    }

    method CreateTask(c: Claims, f: TaskForm) returns (reply: Reply<nat>)
      requires Valid()
      modifies this
      ensures Valid() && rooms == old(rooms)
      ensures Outcome(tables, reply) == CreateTaskOutcome(old(tables), c, f)
    {
      var o := CreateTaskOutcome(tables, c, f);
      tables, reply := o.tables, o.reply;
    }

    method ReceiveWebhook(f: WebhookForm) returns (reply: Reply<string>)
      requires Valid()
      modifies this
      ensures Valid() && rooms == old(rooms)
      ensures Outcome(tables, reply) == WebhookOutcome(old(tables), f)
    {
      var o := WebhookOutcome(tables, f);
      tables, reply := o.tables, o.reply;
    }

    /** `join-lead`: the socket enters the room of the lead id it sent. */
    method JoinLead(socket: nat, leadId: JsValue)
      requires Valid()
      modifies this
      ensures Valid() && tables == old(tables)
      ensures rooms == Joined(old(rooms), socket, RoomName(leadId))
    {
      rooms := Joined(rooms, socket, RoomName(leadId));
    }

    /** `send-message`: the guard, then the broadcast to the room as it is,
        then the insert whose failure is swallowed. */
    method SendMessage(m: Message) returns (d: Option<Delivery>)
      requires Valid()
      modifies this
      ensures Valid() && rooms == old(rooms)
      ensures d == Broadcast(old(rooms), m)
      ensures tables == StoreMessage(old(tables), m)
    {
      if !JsTruthy(m.leadId) || !JsTruthy(m.content) {
        return None;
      }
      d := Some(Delivery(Members(rooms, RoomName(m.leadId)), "new-message", m));
      var lead, user, kind, content :=
        Bind(m.leadId), Bind(JsOr(m.userId, Null)), Bind(JsOr(m.kind, Str("internal"))), Bind(m.content);
      if lead.None? || user.None? || kind.None? || content.None? {
        return;
      }
      var stored := InsertCommunication(tables, lead.value, user.value, kind.value, "outbound", content.value);
      if stored.Some? {
        tables := stored.value;
      }
    }
  }
}
